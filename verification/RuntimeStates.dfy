/** The mutable `RuntimeState` record. */
module RuntimeStates {
  import opened Types
  import opened Stores

  class RuntimeState {
    const taskId: TaskId
    const graphHash: Digest
    const contractHash: Digest
    var nodeStatus: map<NodeId, Status>
    var nodeOutputs: map<NodeId, map<Slot, ArtifactId>>
    var initialArtifacts: map<Slot, ArtifactId>
    var activeEdges: set<EdgeId>
    var inactiveEdges: set<EdgeId>
    var finalOutputArtifactId: Option<ArtifactId>
    var frozen: bool
    var waveId: nat
    var checkpointCount: nat
    var nodeLatencies: map<NodeId, nat>

    /** Everything that decides what happens next. */
    function Core(): State
      reads this
    {
      State(nodeStatus, nodeOutputs, initialArtifacts, activeEdges, inactiveEdges, finalOutputArtifactId,
            frozen, waveId, checkpointCount)
    }

    function ToRecord(): Record
      reads this
    {
      Record(taskId, graphHash, contractHash, Core(), nodeLatencies)
    }

    /** `model_validate_json` of a checkpoint, and a deep copy. */
    constructor FromRecord(r: Record)
      ensures ToRecord() == r
    {
      taskId, graphHash, contractHash := r.task, r.graphHash, r.contractHash;
      nodeStatus, nodeOutputs, initialArtifacts := r.state.status, r.state.outputs, r.state.initial;
      activeEdges, inactiveEdges := r.state.active, r.state.inactive;
      finalOutputArtifactId, frozen := r.state.final, r.state.frozen;
      waveId, checkpointCount := r.state.waveId, r.state.checkpointCount;
      nodeLatencies := r.latencies;
    }

    method ModelCopy() returns (copy: RuntimeState)
      ensures fresh(copy) && copy.ToRecord() == ToRecord()
    {
      copy := new RuntimeState.FromRecord(ToRecord());
    }
  }
}
