/**
 The DALI bus as the lamp controller sees it (IEC 62386-102 control gear):
 addresses, the values a query answers with, the two commands that change
 a ballast, and the driver that carries them.
 */
module Dali {

  /** A control-gear address: an individual short address or a group address. */
  datatype Address = Short(a: nat) | Group(g: nat)

  /** Number of short addresses on one bus (0 to 63). */
  const ShortAddressCount: nat := 64

  /** Number of groups on one bus (0 to 15). */
  const GroupCount: nat := 16

  /**
   The Python value a reply's `.value` yields: an integer, or some other
   object together with its truthiness. `NonInt(false)` stands for `None`
   (a failed or missing answer), `NonInt(true)` for a truthy non-integer
   such as a masked answer.
   */
  datatype Value = Int(n: int) | NonInt(truthy: bool)

  /** Python truthiness of a value: an integer is true unless it is zero. */
  predicate Truthy(v: Value)
  {
    match v
    case Int(n) => n != 0
    case NonInt(t) => t
  }

  /** The four answers the constructor of a lamp reads off the bus. */
  datatype LampReadings = LampReadings(
    physicalMinimum: Value,  // QUERY PHYSICAL MINIMUM
    minLevel: Value,         // QUERY MIN LEVEL
    maxLevel: Value,         // QUERY MAX LEVEL
    actualLevel: Value)      // QUERY ACTUAL LEVEL

  /** The commands that change a ballast's output. */
  datatype Command =
    | DAPC(address: Address, level: int)  // direct arc power control
    | Off(address: Address)

  datatype Option<T> = None | Some(value: T)

  /**
   The driver every lamp sends through. `sent` records, in order, every
   DAPC and OFF command put on the bus; queries are answered by the
   environment and appear as parameters of the operations that read them.
   */
  class Bus {
    const driverName: string  // the driver implementation's class name
    var sent: seq<Command>

    constructor (driverName: string)
      ensures this.driverName == driverName && sent == []
    {
      this.driverName := driverName;
      sent := [];
    }

    method Send(c: Command)
      modifies this`sent
      ensures sent == old(sent) + [c]
    {
      sent := sent + [c];
    }
  }
}
