/** The driver globals that the event loops share, and the notifications that drive the loops. */
module Devices {
  import opened CTypes

  const DOUBLE_BYTE: uint8 := 0xE0
  const BREAK_BIT: uint8 := 0x80
  const ESC_BREAKCODE: uint8 := 0x81

  /** The keyboard side of a notification: its bit is clear, or kbc_ih finds no byte to read, or it
      stores a byte in scan_code but does not flag it, because the status read with the byte shows a
      parity or timeout error, or it stores a byte and flags it. */
  datatype KeyboardLine = Quiet | NoByte | Spoiled(code: uint8) | Byte(code: uint8)

  /** What one driver_receive yields: an error, a message or notification of no interest, or a
      hardware notification with its two interrupt bits. */
  datatype Event = Failed | Other | Hardware(keyboard: KeyboardLine, timer: bool)

  /** One call of kbd_print_scancode. */
  datatype Token = Token(make: bool, bytes: seq<uint8>)

  /** A byte stored in scan_code; kbc_ih calls it valid or not. */
  datatype Arrival = Arrival(code: uint8, valid: bool)

  function Arriving(line: KeyboardLine): seq<Arrival> {
    match line
    case Quiet => []
    case NoByte => []
    case Spoiled(code) => [Arrival(code, false)]
    case Byte(code) => [Arrival(code, true)]
  }

  /** The bytes stored over a run. */
  function Arrivals(events: seq<Event>): seq<Arrival> {
    if events == [] then []
    else
      var before, e := Arrivals(events[..|events| - 1]), events[|events| - 1];
      if e.Hardware? then before + Arriving(e.keyboard) else before
  }

  /** The valid ones among them, which the keyboard loops decode. */
  function Valid(arrivals: seq<Arrival>): seq<uint8> {
    if arrivals == [] then []
    else
      var before, last := Valid(arrivals[..|arrivals| - 1]), arrivals[|arrivals| - 1];
      if last.valid then before + [last.code] else before
  }

  /** A stream read without errors. */
  function AllValid(stream: seq<uint8>): (arrivals: seq<Arrival>)
    ensures |arrivals| == |stream|
  {
    seq(|stream|, i requires 0 <= i < |stream| => Arrival(stream[i], true))
  }

  class Drivers {
    var scanCode: uint8
    var ihValid: bool
    var counter: nat
    var printed: seq<Token>

    /** A byte is stored whenever the port yields one, and flagged when its status shows no error;
        nothing ever clears the flag here. */
    method KbcIh(line: KeyboardLine)
      modifies `scanCode, `ihValid
      ensures scanCode == match line
                          case Quiet => old(scanCode)
                          case NoByte => old(scanCode)
                          case Spoiled(code) => code
                          case Byte(code) => code
      ensures ihValid <==> line.Byte? || old(ihValid)
    {
      match line
      case Quiet =>
      case NoByte =>
      case Spoiled(code) => scanCode := code;
      case Byte(code) =>
        scanCode := code;
        ihValid := true;
    }

    method TimerIntHandler()
      modifies `counter
      ensures counter == old(counter) + 1
    {
      counter := counter + 1;
    }

    /** kbd_print_scancode(!(scan_code & BREAK_BIT), size, bytes). */
    method PrintScancode(size: nat, bytes: array<uint8>)
      requires size <= bytes.Length
      modifies `printed
      ensures printed == old(printed) + [Token(scanCode < BREAK_BIT, bytes[..size])]
    {
      printed := printed + [Token(scanCode < BREAK_BIT, bytes[..size])];
    }
  }
}
