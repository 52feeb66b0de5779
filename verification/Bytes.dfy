/** Octets and the error codes shared by the MQTT modules. */
module Bytes {
  type byte = b: int | 0 <= b < 256

  datatype Option<T> = None | Some(value: T)

  /** Return codes of the library that the model distinguishes (mosquitto.h). */
  datatype Rc = Success | Inval | Malformed | PayloadSize | Protocol | NotFound | NoConn
    | ConnLost | Errno | NoMem | Unknown
}
