/** Abstract stand-ins for the payload classes the middleware works with
    (BsmData, VehicleData, DnmRequestData, ... in src/obu/classes.py, which
    is not part of this model). Only the fields the middleware reads or
    writes are kept. */
module Messages {

  datatype Option<T> = None | Some(value: T)

  /** The failures the dispatcher and the telemetry entry point can raise. */
  datatype Error =
    | MalformedHeader      // the header could not be unpacked
    | UnknownMessageType   // the type code is not a key of MSG_TYPE (KeyError)
    | TruncatedPayload     // unpack_data of the payload raised
    | InvalidInput         // set_vehicle_data received something that is not a dict (TypeError)

  datatype Result<T> = Ok(value: T) | Err(error: Error)

  /** A Python argument that is either a dict or some other object;
      the middleware checks this at run time in two places. */
  datatype Arg<T> = DictArg(dict: T) | OtherArg

  /** A telemetry or attribute value, with Python's notion of truthiness. */
  datatype Value =
    | NoneVal
    | BoolVal(b: bool)
    | IntVal(i: int)
    | RealVal(r: real)
    | StrVal(s: string)

  predicate Truthy(v: Value)
  {
    match v
    case NoneVal => false
    case BoolVal(b) => b
    case IntVal(i) => i != 0
    case RealVal(r) => r != 0.0
    case StrVal(s) => s != ""
  }

  /** An object's attribute dictionary (`__dict__`, `to_dict()`). */
  type Record = map<string, Value>

  /** The attribute of VehicleData that the middleware consults. */
  const TurnSignalField: string := "turn_signal"

  /** The attribute of BsmData that carries the ego identity. */
  const L2idField: string := "l2id"

  /** `vehicle_data.turn_signal` is truthy. A snapshot without the attribute
      counts as having no active signal. */
  predicate TurnSignalActive(vehicle: Record)
  {
    TurnSignalField in vehicle && Truthy(vehicle[TurnSignalField])
  }

  /** The message types of the catalog (class MessageType). */
  datatype MsgKind =
    | L2idRequest
    | L2idResponse
    | DnmRequest
    | DnmResponse
    | DnmDone
    | BsmNoit
    | BsmLightNoit
    | DmmNoit
    | EdmNoit

  /** A decoded inbound message: the fields the dispatcher and the sweep read. */
  datatype Received = Received(l2id: int, sender: int, timestamp: real)

  /** An outbound message handed to the radio transport. */
  datatype Outbound =
    | L2idRequestMsg                                  // L2idRequestData()
    | DnmResponseMsg(l2id: int, receiver: int)        // DnmResponseData(ego_l2id, receiver)
    | DmmMsg(l2id: int, turnSignal: Value)            // DmmData(ego_l2id, turn_signal)
}
