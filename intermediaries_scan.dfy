/**
 * The `Scan` methods of the intermediary lists (AttributeIntermediaryList,
 * CapabilityIntermediaryList, GroupCapabilityIntermediaryList and
 * GroupIdsList): the database value must be a byte slice, which is then
 * decoded as JSON. The decoder is a parameter.
 */
module IntermediaryScan {
  import opened Common

  type byte = b: int | 0 <= b < 256

  /** A value handed over by the database driver. */
  datatype DbValue = Bytes(bytes: seq<byte>) | NotBytes(typeName: string)

  const TypeAssertionMessage: string := "type assertion to []byte failed"

  /** The decoded list, or the error Scan returns. */
  function Scan<T>(value: DbValue, decode: seq<byte> -> Result<T, string>): (r: Result<T, string>)
    ensures value.NotBytes? ==> r == Failure(TypeAssertionMessage)
    ensures value.Bytes? ==> r == decode(value.bytes)
  {
    match value
    case NotBytes(_) => Failure(TypeAssertionMessage)
    case Bytes(b) => decode(b)
  }
}
