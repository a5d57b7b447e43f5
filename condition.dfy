/** A condition of a subject (a named part of the experiment) with the
    sensor recordings taken under it, keyed by sensor type. */
module Conditions {
  import opened Wrappers
  import opened Dicts
  import opened Sensors

  class Condition {
    const name: string
    var sensors: Dict<string, SensorData>

    /** The dict is well formed and every recording is stored under its
        own sensor type. */
    ghost predicate Valid()
      reads this
    {
      sensors.Valid() && forall t :: t in sensors.entries ==> sensors.entries[t].sensorType == t
    }

    constructor (name: string)
      ensures this.name == name && sensors == Empty() && Valid()
    {
      this.name := name;
      sensors := Empty();
    }

    /** `add_sensor_data`: stores the recording under its sensor type,
        replacing a recording of the same type. */
    method AddSensorData(sensorData: SensorData)
      requires Valid()
      modifies this
      ensures sensors == old(sensors).Put(sensorData.sensorType, sensorData)
      ensures Valid()
      ensures GetSensorData(sensorData.sensorType) == Some(sensorData)
      ensures forall t :: t != sensorData.sensorType ==> GetSensorData(t) == old(GetSensorData(t))
    {
      sensors := sensors.Put(sensorData.sensorType, sensorData);
    }

    /** `get_sensor_data`: the stored recording of that type, or None. */
    function GetSensorData(sensorType: string): (r: Option<SensorData>)
      reads this
      ensures r.Some? ==> sensorType in sensors.entries && r.value == sensors.entries[sensorType]
      ensures Valid() ==> (r.Some? <==> sensorType in sensors.keys)
      ensures Valid() && r.Some? ==> r.value.sensorType == sensorType
    {
      sensors.Get(sensorType)
    }
  }
}
