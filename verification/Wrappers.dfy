// Values shared by the other modules.
module Wrappers {
  datatype Option<+T> = None | Some(value: T)

  const TWO32: int := 0x1_0000_0000

  type U32 = x: int | 0 <= x < 0x1_0000_0000
  type U16 = x: int | 0 <= x < 0x1_0000
  type Byte = x: int | 0 <= x < 0x100

  // A UDP address: IPv4 in host order, and a port.
  datatype Endpoint = Endpoint(ip: U32, port: U16)
}
