/** GenericMotorData: motor data whose ten fields (declared by MotorData) are
    overwritten by the values passed to `update`. */
module MotorData {

  /** The ten fields of MotorData, as one value. */
  datatype Fields = Fields(
    appliedVolts: real,
    connected: bool,
    faultActive: bool,
    faults: string,
    motorTemperatureCelsius: real,
    outputCurrentAmps: real,
    position: real,
    processorTemperatureCelsius: real,
    supplyCurrentAmps: real,
    velocity: real)

  /** The field initialisers of MotorData. */
  const Initial := Fields(0.0, false, false, "", 0.0, 0.0, 0.0, 0.0, 0.0, 0.0)

  class GenericMotorData {
    var appliedVolts: real
    var connected: bool
    var faultActive: bool
    var faults: string
    var motorTemperatureCelsius: real
    var outputCurrentAmps: real
    var position: real
    var processorTemperatureCelsius: real
    var supplyCurrentAmps: real
    var velocity: real

    function Current(): Fields
      reads this
    {
      Fields(appliedVolts, connected, faultActive, faults, motorTemperatureCelsius,
             outputCurrentAmps, position, processorTemperatureCelsius, supplyCurrentAmps, velocity)
    }

    constructor ()
      ensures Current() == Initial
    {
      appliedVolts := 0.0;
      connected := false;
      faultActive := false;
      faults := "";
      motorTemperatureCelsius := 0.0;
      outputCurrentAmps := 0.0;
      position := 0.0;
      processorTemperatureCelsius := 0.0;
      supplyCurrentAmps := 0.0;
      velocity := 0.0;
    }

    /** The full `update`: every field takes the argument of its name. */
    method Update(appliedVolts: real, connected: bool, faultActive: bool, faults: string,
                  motorTemperatureCelsius: real, outputCurrentAmps: real, position: real,
                  processorTemperatureCelsius: real, supplyCurrentAmps: real, velocity: real)
      modifies this
      ensures Current() == Fields(appliedVolts, connected, faultActive, faults, motorTemperatureCelsius,
                                  outputCurrentAmps, position, processorTemperatureCelsius,
                                  supplyCurrentAmps, velocity)
    {
      this.appliedVolts := appliedVolts;
      this.connected := connected;
      this.faultActive := faultActive;
      this.faults := faults;
      this.motorTemperatureCelsius := motorTemperatureCelsius;
      this.outputCurrentAmps := outputCurrentAmps;
      this.position := position;
      this.processorTemperatureCelsius := processorTemperatureCelsius;
      this.supplyCurrentAmps := supplyCurrentAmps;
      this.velocity := velocity;
    }

    /** The five-argument `update`: the full update with the motor reported
        connected and fault-free and both temperatures 0. */
    method UpdateMeasured(appliedVolts: real, outputCurrentAmps: real, position: real,
                          supplyCurrentAmps: real, velocity: real)
      modifies this
      ensures Current() == Fields(appliedVolts, true, false, "", 0.0, outputCurrentAmps, position, 0.0,
                                  supplyCurrentAmps, velocity)
      ensures connected && !faultActive && faults == ""
      ensures motorTemperatureCelsius == 0.0 && processorTemperatureCelsius == 0.0
    {
      Update(appliedVolts, true, false, "", 0.0, outputCurrentAmps, position, 0.0, supplyCurrentAmps, velocity);
    }
  }
}
