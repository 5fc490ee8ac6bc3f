/**
  Value types shared by every part of the controller model: the tagged union
  that stands for Go's dynamically typed property values, optional results,
  Go `error` results, sensor readings and GPIO pin writes.
 */
module Values {

  /** Largest value of Go's `uint64`. */
  const MaxUint64: nat := 0xFFFF_FFFF_FFFF_FFFF

  type Uint64 = n: nat | n <= MaxUint64

  datatype Option<+T> = None | Some(value: T)

  /** A property value. `VNil` is Go's nil `interface{}`. */
  datatype Value = VNil | VStr(s: string) | VUint(u: Uint64) | VBool(b: bool)

  /** Go's `error` result: nil, or an error known by its Error() text. */
  datatype Outcome = Pass | Fail(error: string)

  /** A float64 reading, kept as its IEEE-754 bit pattern. The controller only
      stores and forwards readings; no arithmetic on them is modelled. */
  datatype Float = Float(bits: bv64)

  /** A level driven onto a GPIO pin. */
  datatype Level = Low | High

  /** One `Pin.Out(level)` call on the pin resolved from a GPIO name. */
  datatype PinWrite = PinWrite(pin: string, level: Level)
}
