/** Building subjects from nested dicts
    `{condition name: {sensor type: frame}}`. */
module SubjectFactory {
  import opened Wrappers
  import opened Seqs
  import opened Dicts
  import opened Frames
  import opened Sensors
  import opened Conditions
  import opened Subjects

  type SensorsDict = Dict<string, Frame>
  type ConditionsDict = Dict<string, SensorsDict>

  /** Python dicts are well formed at every level. */
  predicate WellFormed(data: ConditionsDict)
  {
    data.Valid() && forall c :: c in data.entries ==> data.entries[c].Valid()
  }

  /** The condition holds exactly the given sensors, in their order, each
      wrapping its frame. */
  ghost predicate HoldsSensors(condition: Condition, sensors: SensorsDict)
    reads condition
  {
    && condition.Valid()
    && condition.sensors.keys == sensors.keys
    && forall t :: t in condition.sensors.entries ==> t in sensors.entries && condition.sensors.entries[t].data == sensors.entries[t]
  }

  /** The subject holds exactly the given conditions, in their order, and
      each of them exactly its sensors. */
  ghost predicate Holds(subject: Subject, data: ConditionsDict)
    reads subject, subject.conditions.entries.Values
  {
    && subject.conditions.keys == data.keys
    && HoldsEach(subject, data)
  }

  /** The inner loop of `create_subject_from_nested_dict`: one condition
      and its sensors. */
  method CreateCondition(name: string, sensors: SensorsDict) returns (condition: Condition)
    requires sensors.Valid()
    ensures fresh(condition) && condition.name == name && condition.Valid()
    ensures HoldsSensors(condition, sensors)
  {
    condition := new Condition(name);
    var i := 0;
    while i < |sensors.keys|
      invariant 0 <= i <= |sensors.keys|
      invariant condition.name == name && condition.Valid()
      invariant condition.sensors.keys == sensors.keys[..i]
      invariant forall t :: t in condition.sensors.entries ==> t in sensors.entries && condition.sensors.entries[t].data == sensors.entries[t]
    {
      var sensorType := sensors.keys[i];
      var sensorData := new SensorData(sensorType, sensors.entries[sensorType]);
      assert sensorType !in sensors.keys[..i];
      condition.AddSensorData(sensorData);
      TakeStep(sensors.keys, i);
      i := i + 1;
    }
    TakeAll(sensors.keys);
  }

  /** Every stored condition holds its own sensors. */
  ghost predicate HoldsEach(subject: Subject, data: ConditionsDict)
    reads subject, subject.conditions.entries.Values
  {
    forall c :: c in subject.conditions.entries ==> c in data.entries && HoldsSensors(subject.conditions.entries[c], data.entries[c])
  }

  /** One step of the outer loop: the condition built from its sensors is
      added under its name. */
  method AddCreatedCondition(subject: Subject, data: ConditionsDict, name: string)
    requires WellFormed(data) && name in data.entries
    requires subject.Valid() && HoldsEach(subject, data)
    modifies subject
    ensures subject.Valid() && HoldsEach(subject, data)
    ensures name in subject.conditions.entries
    ensures subject.conditions == old(subject.conditions).Put(name, subject.conditions.entries[name])
  {
    var condition := CreateCondition(name, data.entries[name]);
    subject.AddCondition(condition);
  }

  /** `create_subject_from_nested_dict`. */
  method CreateSubjectFromNestedDict(subjectId: string, data: ConditionsDict) returns (subject: Subject)
    requires WellFormed(data)
    ensures fresh(subject) && subject.subjectId == subjectId && subject.Valid()
    ensures Holds(subject, data)
    ensures forall c, t :: c in data.entries && t in data.entries[c].entries ==>
      && subject.GetCondition(c).Some?
      && subject.GetCondition(c).value.GetSensorData(t).Some?
      && subject.GetCondition(c).value.GetSensorData(t).value.data == data.entries[c].entries[t]
  {
    subject := new Subject(subjectId);
    var i := 0;
    while i < |data.keys|
      invariant 0 <= i <= |data.keys|
      invariant fresh(subject) && subject.subjectId == subjectId && subject.Valid()
      invariant subject.conditions.keys == data.keys[..i]
      invariant HoldsEach(subject, data)
    {
      var name := data.keys[i];
      assert name !in data.keys[..i];
      AddCreatedCondition(subject, data, name);
      TakeStep(data.keys, i);
      i := i + 1;
    }
    TakeAll(data.keys);
    HoldsGives(subject, data);
  }

  /** What a subject holds is what `get_condition(c).get_sensor_data(t)`
      returns. */
  lemma HoldsGives(subject: Subject, data: ConditionsDict)
    requires WellFormed(data) && subject.Valid() && Holds(subject, data)
    ensures forall c, t :: c in data.entries && t in data.entries[c].entries ==>
      && subject.GetCondition(c).Some?
      && subject.GetCondition(c).value.GetSensorData(t).Some?
      && subject.GetCondition(c).value.GetSensorData(t).value.data == data.entries[c].entries[t]
  {
    forall c, t | c in data.entries && t in data.entries[c].entries
      ensures subject.GetCondition(c).Some?
      ensures subject.GetCondition(c).value.GetSensorData(t).Some?
      ensures subject.GetCondition(c).value.GetSensorData(t).value.data == data.entries[c].entries[t]
    {
      assert c in subject.conditions.keys;
      var condition := subject.conditions.entries[c];
      assert HoldsSensors(condition, data.entries[c]);
      assert t in condition.sensors.keys;
    }
  }

  /** `create_subjects_from_nested_dicts`: one subject per top-level key,
      in key order. */
  method CreateSubjectsFromNestedDicts(allData: Dict<string, ConditionsDict>) returns (subjects: seq<Subject>)
    requires allData.Valid() && forall s :: s in allData.entries ==> WellFormed(allData.entries[s])
    ensures |subjects| == |allData.keys|
    ensures forall i :: 0 <= i < |subjects| ==>
      && fresh(subjects[i])
      && subjects[i].subjectId == allData.keys[i]
      && subjects[i].Valid()
      && Holds(subjects[i], allData.entries[allData.keys[i]])
  {
    subjects := [];
    var i := 0;
    while i < |allData.keys|
      invariant 0 <= i <= |allData.keys|
      invariant |subjects| == i
      invariant forall j :: 0 <= j < i ==>
        && fresh(subjects[j])
        && subjects[j].subjectId == allData.keys[j]
        && subjects[j].Valid()
        && Holds(subjects[j], allData.entries[allData.keys[j]])
    {
      subjects := AppendSubject(allData, subjects);
      i := i + 1;
    }
  }

  /** One step of `create_subjects_from_nested_dicts`: the subject for the
      next key is built and appended; the subjects before it are kept. */
  method AppendSubject(allData: Dict<string, ConditionsDict>, subjects: seq<Subject>) returns (r: seq<Subject>)
    requires allData.Valid() && forall s :: s in allData.entries ==> WellFormed(allData.entries[s])
    requires |subjects| < |allData.keys|
    requires forall j :: 0 <= j < |subjects| ==>
      && subjects[j].subjectId == allData.keys[j]
      && subjects[j].Valid()
      && Holds(subjects[j], allData.entries[allData.keys[j]])
    ensures |r| == |subjects| + 1 && fresh(r[|subjects|])
    ensures forall j :: 0 <= j < |subjects| ==> r[j] == subjects[j]
    ensures forall j :: 0 <= j < |r| ==>
      && r[j].subjectId == allData.keys[j]
      && r[j].Valid()
      && Holds(r[j], allData.entries[allData.keys[j]])
  {
    var subjectId := allData.keys[|subjects|];
    var subject := CreateSubjectFromNestedDict(subjectId, allData.entries[subjectId]);
    r := subjects + [subject];
  }
}
