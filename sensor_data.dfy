/** The recording of one sensor, as a condition stores it. */
module Sensors {
  import opened Frames

  class SensorData {
    const sensorType: string
    const data: Frame

    constructor (sensorType: string, data: Frame)
      ensures this.sensorType == sensorType && this.data == data
    {
      this.sensorType := sensorType;
      this.data := data;
    }
  }
}
