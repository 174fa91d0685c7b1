/** CANFrequency: preset signal update frequencies (Hz) for CAN FD and CAN 2.0 buses. */
module CANFrequencies {

  /** A CAN bus as far as these utilities see it: its identity and whether
      its network supports CAN FD (`CANBus.isNetworkFD()`). */
  datatype CANBus = CANBus(name: string, isNetworkFD: bool)

  datatype CANFrequency = FAST | MEDIUM | SLOW
  {
    function FdFrequency(): real
    {
      match this
      case FAST => 250.0
      case MEDIUM => 100.0
      case SLOW => 25.0
    }

    function StandardFrequency(): real
    {
      match this
      case FAST => 100.0
      case MEDIUM => 50.0
      case SLOW => 10.0
    }

    /** `getFrequency(canBus)`: the FD preset on a CAN FD network, the standard one otherwise. */
    function GetFrequency(canBus: CANBus): (f: real)
      ensures canBus.isNetworkFD ==> f == FdFrequency()
      ensures !canBus.isNetworkFD ==> f == StandardFrequency()
      ensures f > 0.0
    {
      if canBus.isNetworkFD then FdFrequency() else StandardFrequency()
    }
  }

  /** The preset table. */
  lemma PresetTable()
    ensures FAST.FdFrequency() == 250.0 && FAST.StandardFrequency() == 100.0
    ensures MEDIUM.FdFrequency() == 100.0 && MEDIUM.StandardFrequency() == 50.0
    ensures SLOW.FdFrequency() == 25.0 && SLOW.StandardFrequency() == 10.0
  {
  }

  /** On either kind of bus FAST > MEDIUM > SLOW. */
  lemma PresetsOrdered(canBus: CANBus)
    ensures FAST.GetFrequency(canBus) > MEDIUM.GetFrequency(canBus) > SLOW.GetFrequency(canBus)
  {
  }

  /** A CAN FD bus never gets a lower preset than a CAN 2.0 bus. */
  lemma FdAtLeastStandard(frequency: CANFrequency, fd: CANBus, standard: CANBus)
    requires fd.isNetworkFD && !standard.isNetworkFD
    ensures frequency.GetFrequency(fd) >= frequency.GetFrequency(standard)
  {
  }
}
