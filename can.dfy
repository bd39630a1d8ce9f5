/** Classic CAN frames as the Zephyr CAN driver delivers them (`struct can_frame`). */
module Can {
  newtype byte = x: int | 0 <= x < 256

  /** The eight-byte payload array of a classic CAN frame. */
  type FrameData = s: seq<byte> | |s| == 8 witness [0, 0, 0, 0, 0, 0, 0, 0]

  /** `id` is the 11- or 29-bit identifier, `dlc` the 4-bit data length code. */
  datatype CanFrame = CanFrame(flags: nat, id: nat, dlc: nat, data: FrameData)

  /**
   * `can_dlc_to_bytes`: codes 0..8 are byte counts; codes 9..15 are the CAN FD lengths
   * 12, 16, 20, 24, 32, 48, 64, and larger codes are clamped to the last entry.
   */
  function DlcToBytes(dlc: nat): (n: nat)
    ensures n <= 64
    ensures dlc <= 8 ==> n == dlc
    ensures dlc > 8 ==> n > 8
  {
    if dlc <= 8 then dlc
    else if dlc == 9 then 12
    else if dlc == 10 then 16
    else if dlc == 11 then 20
    else if dlc == 12 then 24
    else if dlc == 13 then 32
    else if dlc == 14 then 48
    else 64
  }
}
