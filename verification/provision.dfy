/**
 * The tool's three engine-facing operations: provisioning a container that
 * shares a source container's namespaces (create, then start), transplanting
 * a runtime state file onto a container (write, then start), and fetching a
 * container's runtime state file (stat, then read).
 */
module Provision {
  import opened Outcomes
  import opened Configs
  import opened Paths
  import opened Engine

  datatype Error =
    | InspectFailed(ref: string)
    | CreateFailed
    | StartFailed(id: string)
    | StateNotFound(path: string)
    | StateReadFailed
    | StateWriteFailed(destination: string)
    | RestartFailed(destination: string)

  /** The calls of one provisioning, given the engine's answers: create, then start on the new ID if there is one. */
  function ProvisionCalls(config: ContainerConfig, host: HostConfig, name: string, newId: Option<string>, startOk: bool): seq<Event>
  {
    [Create(config, host, name, newId)] + (if newId.Some? then [Start(newId.value, startOk)] else [])
  }

  /** Every start in the log is on an ID that an earlier create in the log returned. */
  ghost predicate StartsFollowCreates(log: seq<Event>)
  {
    forall i :: 0 <= i < |log| && log[i].Start? ==>
      exists j :: 0 <= j < i && log[j].Create? && log[j].newId == Some(log[i].id)
  }

  /** Calls other than starts never break the ordering. */
  lemma AppendNoStart(log: seq<Event>, e: Event)
    requires StartsFollowCreates(log) && !e.Start?
    ensures StartsFollowCreates(log + [e])
  {
    var all := log + [e];
    forall i | 0 <= i < |all| && all[i].Start?
      ensures exists j :: 0 <= j < i && all[j].Create? && all[j].newId == Some(all[i].id)
    {
      assert all[i] == log[i];
      var j :| 0 <= j < i && log[j].Create? && log[j].newId == Some(log[i].id);
      assert all[j] == log[j];
    }
  }

  /** Provisioning keeps every start behind the create that returned its ID. */
  lemma ProvisionCallsOrdered(log: seq<Event>, config: ContainerConfig, host: HostConfig, name: string,
                              newId: Option<string>, startOk: bool)
    requires StartsFollowCreates(log)
    ensures StartsFollowCreates(log + ProvisionCalls(config, host, name, newId, startOk))
  {
    var calls := ProvisionCalls(config, host, name, newId, startOk);
    var all := log + calls;
    forall i | 0 <= i < |all| && all[i].Start?
      ensures exists j :: 0 <= j < i && all[j].Create? && all[j].newId == Some(all[i].id)
    {
      if i < |log| {
        assert all[i] == log[i];
        var j :| 0 <= j < i && log[j].Create? && log[j].newId == Some(log[i].id);
        assert all[j] == log[j];
      } else {
        assert i == |log| + 1 && all[i] == Start(newId.value, startOk);
        assert all[|log|] == Create(config, host, name, newId);
      }
    }
  }

  /**
   * `createAndStartContainer`: build both configurations, create, and start
   * the ID create returned. A failed create stops before any start; a failed
   * start leaves the created container in place and reports the failure.
   */
  method CreateAndStartContainer(h: Host, imageName: string, containerName: string, sourceId: string,
                                 cmd: seq<string>, interactive: bool)
    returns (r: Result<string, Error>, ghost newId: Option<string>, ghost startOk: bool)
    requires h.Valid()
    modifies h`created, h`started, h`log
    ensures h.Valid()
    ensures h.log == old(h.log) + ProvisionCalls(BuildConfig(imageName, cmd, interactive), BuildHostConfig(sourceId),
                                                 containerName, newId, startOk)
    ensures newId.None? ==> r == Err(CreateFailed) && h.created == old(h.created) && h.started == old(h.started)
    ensures newId.Some? ==> newId.value != "" && newId.value !in old(h.created)
                            && h.created == old(h.created) + {newId.value}
    ensures newId.Some? && startOk ==> r == Ok(newId.value) && h.started == old(h.started) + {newId.value}
    ensures newId.Some? && !startOk ==> r == Err(StartFailed(newId.value)) && h.started == old(h.started)
  {
    var hostConfig := BuildHostConfig(sourceId);
    var config := BuildConfig(imageName, cmd, interactive);
    var resp := h.CreateContainer(config, hostConfig, containerName);
    newId, startOk := resp, false;
    if resp.None? {
      r := Err(CreateFailed);
      return;
    }
    var containerId := resp.value;
    var started := h.StartContainer(containerId);
    startOk := started;
    if !started {
      r := Err(StartFailed(containerId));
      return;
    }
    r := Ok(containerId);
  }

  /**
   * `copyStateJSON`: overwrite the destination's state file with the given
   * bytes, then start the destination. A failed write stops before the start
   * and is not rolled back: the state file is as it was or holds a prefix of
   * the bytes. No other file is touched either way.
   */
  method CopyStateJSON(h: Host, source: string, destination: string, stateJSON: seq<byte>)
    returns (r: Outcome<Error>, ghost writeOk: bool, ghost startOk: bool)
    requires h.Valid()
    modifies h`files, h`started, h`log
    ensures h.Valid() && h.created == old(h.created)
    ensures h.log == old(h.log) + [Write(StatePath(destination), stateJSON, writeOk)]
                     + (if writeOk then [Start(destination, startOk)] else [])
    ensures h.files - {StatePath(destination)} == old(h.files) - {StatePath(destination)}
    ensures writeOk ==> h.files == old(h.files)[StatePath(destination) := stateJSON]
    ensures !writeOk ==> r == Fail(StateWriteFailed(destination)) && h.started == old(h.started)
    ensures !writeOk ==> h.files == old(h.files)
                         || (StatePath(destination) in h.files && h.files[StatePath(destination)] <= stateJSON)
    ensures writeOk && startOk ==> r == Pass && destination in h.created
                                   && h.started == old(h.started) + {destination}
    ensures writeOk && !startOk ==> r == Fail(RestartFailed(destination)) && h.started == old(h.started)
  {
    var destStatePath := StatePath(destination);
    var written := h.WriteFile(destStatePath, stateJSON);
    writeOk, startOk := written, false;
    if !written {
      r := Fail(StateWriteFailed(destination));
      return;
    }
    var started := h.StartContainer(destination);
    startOk := started;
    if !started {
      r := Fail(RestartFailed(destination));
      return;
    }
    r := Pass;
  }

  /**
   * `getStateJSON`: a missing state file is reported as not found without
   * being read; otherwise its bytes come back unchanged, unless the read fails.
   */
  method GetStateJSON(h: Host, containerId: string) returns (r: Result<seq<byte>, Error>)
    modifies h`log
    ensures StatePath(containerId) !in h.files ==>
              r == Err(StateNotFound(StatePath(containerId)))
              && h.log == old(h.log) + [Stat(StatePath(containerId), false)]
    ensures StatePath(containerId) in h.files ==>
              h.log == old(h.log) + [Stat(StatePath(containerId), true), Read(StatePath(containerId), r.Ok?)]
              && (r.Ok? ==> r.value == h.files[StatePath(containerId)])
              && (r.Err? ==> r.error == StateReadFailed)
  {
    var statePath := StatePath(containerId);
    var present := h.StatFile(statePath);
    if !present {
      r := Err(StateNotFound(statePath));
      return;
    }
    var stateData := h.ReadFile(statePath);
    if stateData.None? {
      r := Err(StateReadFailed);
      return;
    }
    r := Ok(stateData.value);
  }
}
