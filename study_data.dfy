/** The container hierarchy of a study: subjects hold named sessions, a
    session holds sensor frames and epochs, and an epoch holds the
    features computed over it. Every container is a dict updated in place. */
module Study {
  import opened Wrappers
  import opened Dicts
  import opened Frames

  /** A feature value (the source types these as any Python value). */
  datatype Feature = Number(x: real) | Flag(b: bool) | Text(s: string)

  /** A user-defined stretch of data (say 60 s or 10 beats) that features
      are computed over. */
  class EpochData {
    const epochId: string
    const startTime: real
    const endTime: real
    var sensorFeatures: Dict<string, Dict<string, Feature>>
    var crossSensorFeatures: Dict<string, Feature>

    ghost predicate Valid()
      reads this
    {
      sensorFeatures.Valid() && crossSensorFeatures.Valid()
      && forall t :: t in sensorFeatures.entries ==> sensorFeatures.entries[t].Valid()
    }

    constructor (epochId: string, startTime: real, endTime: real)
      ensures this.epochId == epochId && this.startTime == startTime && this.endTime == endTime
      ensures sensorFeatures == Empty() && crossSensorFeatures == Empty() && Valid()
    {
      this.epochId := epochId;
      this.startTime := startTime;
      this.endTime := endTime;
      sensorFeatures := Empty();
      crossSensorFeatures := Empty();
    }

    /** The features stored for a sensor, or an empty dict. */
    function FeaturesOf(sensorType: string): (r: Dict<string, Feature>)
      reads this
      ensures sensorType !in sensorFeatures.entries ==> r.keys == [] && r.entries == map[]
      ensures Valid() ==> r.Valid()
    {
      FeaturesIn(sensorFeatures, sensorType)
    }

    /** `add_sensor_features`: creates the sensor's dict when it has none
        and merges the new features into it; a feature already present is
        overwritten, the others are kept, and other sensors are untouched. */
    method AddSensorFeatures(sensorType: string, features: Dict<string, Feature>)
      requires Valid() && features.Valid()
      modifies this
      ensures sensorFeatures == old(sensorFeatures).Put(sensorType, old(FeaturesOf(sensorType)).Update(features))
      ensures crossSensorFeatures == old(crossSensorFeatures)
      ensures Valid()
      ensures sensorType in sensorFeatures.keys
      ensures FeaturesOf(sensorType).entries == old(FeaturesOf(sensorType)).entries + features.entries
      ensures old(FeaturesOf(sensorType)).keys <= FeaturesOf(sensorType).keys
      ensures forall t :: t != sensorType ==> FeaturesOf(t) == old(FeaturesOf(t))
    {
      var current := FeaturesOf(sensorType);
      MergeFeatures(sensorFeatures, sensorType, features);
      sensorFeatures := sensorFeatures.Put(sensorType, current.Update(features));
    }
  }

  /** The features a sensor has in the per-sensor dict, or an empty dict. */
  function FeaturesIn(sensorFeatures: Dict<string, Dict<string, Feature>>, sensorType: string): Dict<string, Feature>
  {
    if sensorType in sensorFeatures.entries then sensorFeatures.entries[sensorType] else Empty()
  }

  /** Merging features into one sensor's dict keeps the per-sensor dicts
      well formed, merges the entries, keeps the old keys and leaves the
      other sensors alone. */
  lemma MergeFeatures(sensorFeatures: Dict<string, Dict<string, Feature>>, sensorType: string, features: Dict<string, Feature>)
    requires sensorFeatures.Valid() && forall t :: t in sensorFeatures.entries ==> sensorFeatures.entries[t].Valid()
    requires features.Valid()
    ensures var current := FeaturesIn(sensorFeatures, sensorType);
      var merged := sensorFeatures.Put(sensorType, current.Update(features));
      && merged.Valid() && (forall t :: t in merged.entries ==> merged.entries[t].Valid())
      && sensorType in merged.keys
      && FeaturesIn(merged, sensorType).entries == current.entries + features.entries
      && current.keys <= FeaturesIn(merged, sensorType).keys
      && forall t :: t != sensorType ==> FeaturesIn(merged, t) == FeaturesIn(sensorFeatures, t)
  {
    var current := FeaturesIn(sensorFeatures, sensorType);
    UpdateMeaning(current, features);
    var merged := sensorFeatures.Put(sensorType, current.Update(features));
    assert merged.entries == sensorFeatures.entries[sensorType := current.Update(features)];
  }

  /** One session of a subject: sensor frames, pipeline outputs and epochs. */
  class SessionData {
    const sessionName: string
    const subjectId: string
    var sensors: Dict<string, Frame>
    var processed: Dict<string, Frame>
    var epochs: Dict<string, EpochData>

    /** Every epoch is stored under its own id. */
    ghost predicate Valid()
      reads this
    {
      sensors.Valid() && processed.Valid() && epochs.Valid()
      && forall e :: e in epochs.entries ==> epochs.entries[e].epochId == e
    }

    constructor (sessionName: string, subjectId: string)
      ensures this.sessionName == sessionName && this.subjectId == subjectId
      ensures sensors == Empty() && processed == Empty() && epochs == Empty() && Valid()
    {
      this.sessionName := sessionName;
      this.subjectId := subjectId;
      sensors := Empty();
      processed := Empty();
      epochs := Empty();
    }

    /** `add_sensor_data`: stores the frame under the given sensor type. */
    method AddSensorData(sensorType: string, data: Frame)
      requires Valid()
      modifies this
      ensures sensors == old(sensors).Put(sensorType, data)
      ensures processed == old(processed) && epochs == old(epochs)
      ensures Valid()
    {
      sensors := sensors.Put(sensorType, data);
    }

    /** `get_sensor_data`: the stored frame, or a new empty frame. */
    method GetSensorData(sensorType: string) returns (r: Frame)
      ensures sensorType in sensors.entries ==> r == sensors.entries[sensorType]
      ensures sensorType !in sensors.entries ==> fresh(r) && r.rows == 0 && r.columns == map[] && r.flags == map[]
    {
      if sensorType in sensors.entries {
        r := sensors.entries[sensorType];
      } else {
        r := new Frame(map[], 0);
      }
    }

    /** `add_epoch`: stores the epoch under its id. */
    method AddEpoch(epoch: EpochData)
      requires Valid()
      modifies this
      ensures epochs == old(epochs).Put(epoch.epochId, epoch)
      ensures sensors == old(sensors) && processed == old(processed)
      ensures Valid()
    {
      epochs := epochs.Put(epoch.epochId, epoch);
    }

    /** `get_epoch`: the stored epoch, or None. */
    function GetEpoch(epochId: string): (r: Option<EpochData>)
      reads this
      ensures r.Some? ==> epochId in epochs.entries && r.value == epochs.entries[epochId]
      ensures Valid() ==> (r.Some? <==> epochId in epochs.keys)
      ensures Valid() && r.Some? ==> r.value.epochId == epochId
    {
      epochs.Get(epochId)
    }
  }

  /** A subject with its sessions, keyed by session name. */
  class Subject {
    const subjectId: string
    var sessions: Dict<string, SessionData>

    constructor (subjectId: string)
      ensures this.subjectId == subjectId && sessions == Empty()
    {
      this.subjectId := subjectId;
      sessions := Empty();
    }

    /** `add_session`: stores the session under the given name. */
    method AddSession(sessionName: string, sessionData: SessionData)
      requires sessions.Valid()
      modifies this
      ensures sessions == old(sessions).Put(sessionName, sessionData)
      ensures sessions.Valid()
      ensures GetSession(sessionName) == Some(sessionData)
      ensures forall s :: s != sessionName ==> GetSession(s) == old(GetSession(s))
    {
      sessions := sessions.Put(sessionName, sessionData);
    }

    /** `get_session`: the stored session, or None. */
    function GetSession(sessionName: string): (r: Option<SessionData>)
      reads this
      ensures r.Some? ==> sessionName in sessions.entries && r.value == sessions.entries[sessionName]
      ensures sessions.Valid() ==> (r.Some? <==> sessionName in sessions.keys)
    {
      sessions.Get(sessionName)
    }
  }

  /** The container for all data of a study, keyed by subject id. */
  class StudyData {
    var subjects: Dict<string, Subject>

    /** Every subject is stored under its own id. */
    ghost predicate Valid()
      reads this
    {
      subjects.Valid() && forall s :: s in subjects.entries ==> subjects.entries[s].subjectId == s
    }

    constructor ()
      ensures subjects == Empty() && Valid()
    {
      subjects := Empty();
    }

    /** `add_subject`: stores the subject under its id. */
    method AddSubject(subject: Subject)
      requires Valid()
      modifies this
      ensures subjects == old(subjects).Put(subject.subjectId, subject)
      ensures Valid()
      ensures GetSubject(subject.subjectId) == Some(subject)
      ensures forall s :: s != subject.subjectId ==> GetSubject(s) == old(GetSubject(s))
    {
      subjects := subjects.Put(subject.subjectId, subject);
    }

    /** `get_subject`: the stored subject, or None. */
    function GetSubject(subjectId: string): (r: Option<Subject>)
      reads this
      ensures r.Some? ==> subjectId in subjects.entries && r.value == subjects.entries[subjectId]
      ensures Valid() ==> (r.Some? <==> subjectId in subjects.keys)
      ensures Valid() && r.Some? ==> r.value.subjectId == subjectId
    {
      subjects.Get(subjectId)
    }
  }
}
