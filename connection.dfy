/**
 * How a command reaches the printer: the framing discipline and the transport.
 * The library's Connection class hierarchy (a base class with an Ethernet and
 * an RS-232C subclass) becomes one immutable value with a transport variant.
 */
module Connection {
  import opened Wire

  /** How a frame is delimited on the wire. */
  datatype Delimiter = CR | ETX

  /** The port the printer listens on unless told otherwise. */
  const DefaultPort: Int32 := 9004

  /** The serial line's fixed character length. */
  const BitLength: Int32 := 8

  /** The serial line speeds the printer supports. */
  datatype BaudRate = Bps2400 | Bps4800 | Bps9600 | Bps19200 | Bps38400 | Bps115200
  {
    /** The enum member's integer value, which is its speed in bits per second. */
    function Bps(): (n: Int32)
    {
      match this
      case Bps2400 => 2400
      case Bps4800 => 4800
      case Bps9600 => 9600
      case Bps19200 => 19200
      case Bps38400 => 38400
      case Bps115200 => 115200
    }
  }

  /** The six speeds are distinct and are exactly the listed ones. */
  lemma BaudRateValues(b: BaudRate, c: BaudRate)
    ensures b.Bps() in {2400, 4800, 9600, 19200, 38400, 115200}
    ensures b.Bps() == c.Bps() ==> b == c
  {
  }

  datatype StopBit = OneBit | TwoBits
  {
    /** The enum member's integer value, which is its number of stop bits. */
    function Bits(): (n: Int32)
      ensures 1 <= n <= 2
    {
      if OneBit? then 1 else 2
    }
  }

  /**
   * The serial parity setting. Its enum's file is not part of this model; only
   * the constructor's default member, None, is named, and any other member is
   * carried by its integer value.
   */
  datatype ParityCheck = NoParity | OtherParity(value: Int32)

  datatype Transport =
    | Ethernet(ipAddress: string, port: Int32)
    | Rs232C(baudRate: BaudRate, parityCheck: ParityCheck, stopBit: StopBit)

  datatype Connection = Connection(delimiter: Delimiter, transport: Transport)

  /** An Ethernet connection, with the defaults of its constructor: port 9004 and CR framing. */
  function EthernetConnection(ipAddress: string, port: Int32 := DefaultPort, delimiter: Delimiter := CR): (c: Connection)
    ensures c.transport.Ethernet? && c.transport.ipAddress == ipAddress && c.transport.port == port
    ensures c.delimiter == delimiter
  {
    Connection(delimiter, Ethernet(ipAddress, port))
  }

  /** A serial connection, with the defaults of its constructor: 38400 baud, no parity, one stop bit, CR framing. */
  function Rs232CConnection(baudRate: BaudRate := Bps38400, parityCheck: ParityCheck := NoParity,
                            stopBit: StopBit := OneBit, delimiter: Delimiter := CR): (c: Connection)
    ensures c.transport.Rs232C? && c.transport.baudRate == baudRate && c.transport.parityCheck == parityCheck
    ensures c.transport.stopBit == stopBit && c.delimiter == delimiter
  {
    Connection(delimiter, Rs232C(baudRate, parityCheck, stopBit))
  }

  /** The constructor with every default: 38400 bits per second, no parity, one stop bit and CR framing. */
  lemma Rs232CDefaults()
    ensures var c := Rs232CConnection();
            && c.transport.baudRate.Bps() == 38400 && c.transport.parityCheck == NoParity
            && c.transport.stopBit.Bits() == 1 && c.delimiter == CR
  {
  }
}
