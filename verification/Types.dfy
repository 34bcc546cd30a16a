/** Values shared by the components of the model: probe kinds, optional values,
    bytes and 64-bit integers. */
module Types {

  datatype Option<+T> = None | Some(value: T)

  /** The probe types of pkg/types; `Other` is any other text, including the empty one. */
  datatype ProbeKind = ICMP | TCP | UDP | DNS | HTTP | Other(text: string)

  /** The kinds for which the probe factory of the daemon builds a prober. */
  predicate FactoryBuilds(kind: ProbeKind) {
    match kind
    case ICMP => true
    case TCP => true
    case UDP => true
    case DNS => true
    case HTTP => true
    case Other(_) => false
  }

  /** What one TCP or UDP attempt shows of a port. */
  datatype PortState = Unreachable | Closed | Open

  type Byte = x: int | 0 <= x < 256
  type Bytes = seq<Byte>

  const TWO_63: int := 0x8000_0000_0000_0000

  type Int64 = x: int | -TWO_63 <= x < TWO_63

  /** Two's complement wrap-around of an exact integer result to 64 bits. */
  function Wrap64(x: int): (r: Int64)
    ensures (r - x) % 0x1_0000_0000_0000_0000 == 0
    ensures -TWO_63 <= x < TWO_63 ==> r == x
  {
    (x + 0x8000_0000_0000_0000) % 0x1_0000_0000_0000_0000 - 0x8000_0000_0000_0000
  }
}
