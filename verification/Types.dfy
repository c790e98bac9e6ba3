/** Value types shared by every component of the bt2usb model. */
module Types {
  datatype Option<+T> = None | Some(value: T)

  /** Machine integers of the firmware: unsigned and signed bytes, 16-bit words. */
  type u8 = x: int | 0 <= x < 0x100
  type u16 = x: int | 0 <= x < 0x1_0000
  type i8 = x: int | -128 <= x < 128

  type Octets6 = s: seq<u8> | |s| == 6 witness [0, 0, 0, 0, 0, 0]

  datatype AddressType =
    | Public
    | RandomStatic
    | RandomPrivateResolvable
    | RandomPrivateNonResolvable
    | Anonymous

  /** A BLE device address. */
  datatype Address = Address(kind: AddressType, bytes: Octets6)
}
