/** The fixed-width unsigned integer types of the C program.  A value that would
    leave its range is a verification error, so every width the program relies
    on not overflowing is proved not to overflow. */
module CTypes {

  newtype uint8 = x: int | 0 <= x < 0x100

  newtype uint16 = x: int | 0 <= x < 0x1_0000

  newtype uint32 = x: int | 0 <= x < 0x1_0000_0000
}
