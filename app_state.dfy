/** The application state: the study data, taken from a checkpoint when
    one is to be loaded, else built by the loaders and then optionally
    saved. */
module AppStates {
  import opened Wrappers
  import opened Study
  import opened Checkpoints

  /** The checkpointed state, a dict with the key "study_data". */
  type State = map<string, StudyData>

  const StudyDataKey := "study_data"

  /** `state.get("study_data")`. */
  function StudyDataOf(state: State): (r: Option<StudyData>)
    ensures r.Some? <==> StudyDataKey in state
    ensures r.Some? ==> r.value == state[StudyDataKey]
  {
    if StudyDataKey in state then Some(state[StudyDataKey]) else None
  }

  /** The loaders' result (`LoaderOrchestrator(config).load_study_data()`)
      is the parameter `loaded` of the methods that may build the state;
      `builds` counts how often they were called. */
  class AppState {
    const checkpoint: CheckpointManager<State>
    var studyData: Option<StudyData>
    var builds: nat

    constructor (checkpoint: CheckpointManager<State>)
      ensures this.checkpoint == checkpoint && studyData.None? && builds == 0
    {
      this.checkpoint := checkpoint;
      studyData := None;
      builds := 0;
    }

    /** `load`: takes the study data from the checkpoint when loading is on
        and the checkpoint exists, and builds it otherwise; returns itself. */
    method Load(loaded: StudyData) returns (r: AppState)
      modifies this, checkpoint
      ensures r == this
      ensures var fromCheckpoint := checkpoint.loadStatus && old(checkpoint.onDisk).Some?;
        && (fromCheckpoint ==>
              && studyData == StudyDataOf(old(checkpoint.onDisk).value)
              && builds == old(builds) && checkpoint.saved == old(checkpoint.saved)
              && checkpoint.loadCalls == old(checkpoint.loadCalls) + 1)
        && (!fromCheckpoint ==>
              && studyData == Some(loaded) && builds == old(builds) + 1
              && checkpoint.loadCalls == old(checkpoint.loadCalls)
              && checkpoint.saved == old(checkpoint.saved) + (if checkpoint.saveStatus then [map[StudyDataKey := loaded]] else []))
      ensures checkpoint.existsCalls == old(checkpoint.existsCalls) + (if checkpoint.loadStatus then 1 else 0)
      ensures checkpoint.onDisk == old(checkpoint.onDisk)
    {
      var present := false;
      if checkpoint.loadStatus {
        present := checkpoint.Exists();
      }
      if present {
        var state := checkpoint.Load();
        studyData := StudyDataOf(state.value);
      } else {
        BuildState(loaded);
      }
      r := this;
    }

    /** `_build_state`: the loaders' study data, saved as
        `{"study_data": data}` when saving is on. */
    method BuildState(loaded: StudyData)
      modifies this, checkpoint
      ensures studyData == Some(loaded) && builds == old(builds) + 1
      ensures checkpoint.saved == old(checkpoint.saved) + (if checkpoint.saveStatus then [map[StudyDataKey := loaded]] else [])
      ensures checkpoint.onDisk == old(checkpoint.onDisk)
      ensures checkpoint.existsCalls == old(checkpoint.existsCalls) && checkpoint.loadCalls == old(checkpoint.loadCalls)
    {
      studyData := Some(loaded);
      builds := builds + 1;
      if checkpoint.saveStatus {
        checkpoint.Save(map[StudyDataKey := loaded]);
      }
    }

    /** `get_study_data`: loads only while there is no study data yet. */
    method GetStudyData(loaded: StudyData) returns (r: Option<StudyData>)
      modifies this, checkpoint
      ensures r == studyData
      ensures old(studyData).Some? ==> studyData == old(studyData) && builds == old(builds)
      ensures old(studyData).Some? ==> unchanged(checkpoint)
      ensures old(studyData).None? && !(checkpoint.loadStatus && old(checkpoint.onDisk).Some?) ==>
        studyData == Some(loaded) && builds == old(builds) + 1
      ensures old(studyData).None? && checkpoint.loadStatus && old(checkpoint.onDisk).Some? ==>
        studyData == StudyDataOf(old(checkpoint.onDisk).value) && builds == old(builds)
    {
      if studyData.None? {
        var _ := Load(loaded);
      }
      r := studyData;
    }
  }
}
