/** The `with_checkpoint` decorator: a pipeline stage either takes its
    result from a stored checkpoint or runs and then may store its result. */
module Checkpoints {
  import opened Wrappers

  /** The checkpoint manager as the decorator and the application state see
      it: load and save settings from the configuration, the stored value
      the load side would read, the values passed to `save`, and how often
      `exists` and `load` were called. */
  class CheckpointManager<T> {
    const loadStatus: bool
    const loadId: int
    const saveStatus: bool
    const saveId: int
    var onDisk: Option<T>
    var saved: seq<T>
    var existsCalls: nat
    var loadCalls: nat

    constructor (loadStatus: bool, loadId: int, saveStatus: bool, saveId: int, onDisk: Option<T>)
      ensures this.loadStatus == loadStatus && this.loadId == loadId
      ensures this.saveStatus == saveStatus && this.saveId == saveId
      ensures this.onDisk == onDisk && saved == [] && existsCalls == 0 && loadCalls == 0
    {
      this.loadStatus := loadStatus;
      this.loadId := loadId;
      this.saveStatus := saveStatus;
      this.saveId := saveId;
      this.onDisk := onDisk;
      saved := [];
      existsCalls := 0;
      loadCalls := 0;
    }

    /** `exists`: whether the checkpoint file is there. */
    method Exists() returns (b: bool)
      modifies this
      ensures b <==> onDisk.Some?
      ensures existsCalls == old(existsCalls) + 1
      ensures onDisk == old(onDisk) && saved == old(saved) && loadCalls == old(loadCalls)
    {
      existsCalls := existsCalls + 1;
      b := onDisk.Some?;
    }

    /** `load`: the stored value, or FileNotFoundError. */
    method Load() returns (r: Result<T>)
      modifies this
      ensures onDisk.Some? ==> r == Ok(onDisk.value)
      ensures onDisk.None? ==> r == Err(FileNotFoundError)
      ensures loadCalls == old(loadCalls) + 1
      ensures onDisk == old(onDisk) && saved == old(saved) && existsCalls == old(existsCalls)
    {
      loadCalls := loadCalls + 1;
      r := if onDisk.Some? then Ok(onDisk.value) else Err(FileNotFoundError);
    }

    /** `save`: stores the value. */
    method Save(value: T)
      modifies this
      ensures saved == old(saved) + [value]
      ensures onDisk == old(onDisk) && existsCalls == old(existsCalls) && loadCalls == old(loadCalls)
    {
      saved := saved + [value];
    }
  }

  /** `with_checkpoint(checkpoint_id, ...)` around a stage whose result, if
      it runs, is `computed`; `ran` tells whether the stage ran. The stage's
      result comes from the checkpoint exactly when loading is on, the load
      id is this checkpoint's and the checkpoint exists; then the stage does
      not run and nothing is saved. Otherwise the stage runs once and its
      result is saved exactly when saving is on and the save id is this
      checkpoint's. `exists` is asked only when loading is on for this id. */
  method WithCheckpoint<T>(cm: CheckpointManager<T>, checkpointId: int, computed: T) returns (r: T, ran: bool)
    modifies cm
    ensures var loaded := cm.loadStatus && cm.loadId == checkpointId && old(cm.onDisk).Some?;
      && (loaded ==> r == old(cm.onDisk).value && !ran && cm.saved == old(cm.saved) && cm.loadCalls == old(cm.loadCalls) + 1)
      && (!loaded ==> r == computed && ran && cm.loadCalls == old(cm.loadCalls))
      && (!loaded && cm.saveStatus && cm.saveId == checkpointId ==> cm.saved == old(cm.saved) + [computed])
      && (!loaded && !(cm.saveStatus && cm.saveId == checkpointId) ==> cm.saved == old(cm.saved))
    ensures cm.existsCalls == old(cm.existsCalls) + (if cm.loadStatus && cm.loadId == checkpointId then 1 else 0)
    ensures cm.onDisk == old(cm.onDisk)
  {
    if cm.loadStatus && cm.loadId == checkpointId {
      var present := cm.Exists();
      if present {
        var stored := cm.Load();
        return stored.value, false;
      }
    }
    r, ran := computed, true;
    if cm.saveStatus && cm.saveId == checkpointId {
      cm.Save(r);
    }
  }
}
