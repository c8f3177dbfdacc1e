/** Machine integers, optional values and the program's error values. */
module Common {

  /** An unsigned 8-bit value (a VCP feature code). */
  newtype u8 = x: int | 0 <= x < 0x100

  /** An unsigned 16-bit value (a VCP feature value). */
  newtype u16 = x: int | 0 <= x < 0x1_0000

  datatype Option<T> = None | Some(value: T)

  /** Why an operation failed. `Device` stands for any error the display
      library reports; its detail is chosen by the library. */
  datatype Error =
    | Device(detail: nat)
    | FeatureUnavailable        // "Could not access input source feature"
    | InvalidInputCode(value: u16)
    | NotToggleOption           // "Current input source is not a toggle option"
    | UnknownInputName(name: string)

  datatype Result<T> = Ok(value: T) | Err(error: Error)
}
