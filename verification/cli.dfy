/**
 * The command-line driver: pick the container to clone, inspect it, and
 * provision a new container in its namespaces. Flag parsing, prompting and
 * printing are outside the model; their results arrive as parameters.
 */
module Cli {
  import opened Outcomes
  import opened Configs
  import opened Command
  import opened Engine
  import opened Provision

  /** The values of the `-name`, `-image`, `-cmd`, `-it` and `-target` flags. */
  datatype Options = Options(name: string, image: string, cmd: string, interactive: bool, target: string)

  /** What the flags hold when none is given. */
  const FlagDefaults: Options := Options("cloned-cont", "alpine", "sleep infinity", false, "")

  /**
   * The container to clone: the `-target` flag if non-empty, else the first
   * positional argument if there is one and it is non-empty, else the token
   * read at the prompt (empty when reading fails).
   */
  function SelectTarget(target: string, args: seq<string>, scanned: string): (id: string)
    ensures target != "" ==> id == target
    ensures target == "" && |args| > 0 && args[0] != "" ==> id == args[0]
    ensures target == "" && (|args| == 0 || args[0] == "") ==> id == scanned
    ensures id == "" ==> scanned == ""
  {
    var fromFlags := if target == "" && |args| > 0 then args[0] else target;
    if fromFlags == "" then scanned else fromFlags
  }

  /** The first non-empty candidate, or the empty string when there is none. */
  function FirstNonEmpty(candidates: seq<string>): string
  {
    if candidates == [] then "" else if candidates[0] != "" then candidates[0] else FirstNonEmpty(candidates[1..])
  }

  /** Target selection is a priority list: flag, then first argument, then prompt. */
  lemma SelectTargetPriority(target: string, args: seq<string>, scanned: string)
    ensures SelectTarget(target, args, scanned) == FirstNonEmpty([target] + args[..if |args| > 0 then 1 else 0] + [scanned])
  {
    var cands := [target] + args[..if |args| > 0 then 1 else 0] + [scanned];
    assert FirstNonEmpty([scanned]) == scanned by {
      assert [scanned][1..] == [];
    }
    if |args| > 0 {
      assert cands == [target, args[0], scanned];
      assert cands[1..] == [args[0], scanned];
      assert cands[1..][1..] == [scanned];
    } else {
      assert cands == [target, scanned];
      assert cands[1..] == [scanned];
    }
  }

  /** `getContainerFromID`: inspect a container; a failure names the identifier asked for. */
  method GetContainerFromID(h: Host, containerId: string) returns (r: Result<Descriptor, Error>)
    modifies h`log
    ensures h.log == old(h.log) + [Inspect(containerId, if r.Ok? then Some(r.value) else None)]
    ensures r.Ok? ==> r.value.id in h.created
    ensures r.Err? ==> r.error == InspectFailed(containerId)
    ensures containerId == "" ==> r.Err?
  {
    var info := h.InspectContainer(containerId);
    if info.None? {
      r := Err(InspectFailed(containerId));
      return;
    }
    r := Ok(info.value);
  }

  /**
   * `main` after flag parsing: an `Err` result is the run ending fatally.
   * The namespaces shared are those of the inspected container's canonical
   * ID, not of the identifier the user typed; the new container is a fresh
   * one, never the source itself. An empty target (the prompt read nothing)
   * fails at inspection. A failed create or start is fatal; after a failed
   * start the created container stays behind.
   */
  method Run(h: Host, opts: Options, args: seq<string>, scanned: string)
    returns (r: Result<string, Error>, ghost info: Option<Descriptor>, ghost newId: Option<string>, ghost startOk: bool)
    requires h.Valid()
    modifies h`created, h`started, h`log
    ensures h.Valid()
    ensures SelectTarget(opts.target, args, scanned) == "" ==> info.None?
    ensures info.None? ==> newId.None? && !startOk
    ensures info.None? ==> r == Err(InspectFailed(SelectTarget(opts.target, args, scanned)))
                           && h.log == old(h.log) + [Inspect(SelectTarget(opts.target, args, scanned), None)]
                           && h.created == old(h.created) && h.started == old(h.started)
    ensures info.Some? ==> info.value.id in old(h.created)
                           && h.log == old(h.log) + [Inspect(SelectTarget(opts.target, args, scanned), info)]
                              + ProvisionCalls(BuildConfig(opts.image, ParseCommand(opts.cmd), opts.interactive),
                                               BuildHostConfig(info.value.id), opts.name, newId, startOk)
    ensures info.Some? && newId.None? ==> r == Err(CreateFailed)
                                          && h.created == old(h.created) && h.started == old(h.started)
    ensures info.Some? && newId.Some? ==> newId.value !in old(h.created) && h.created == old(h.created) + {newId.value}
    ensures info.Some? && newId.Some? && startOk ==> r == Ok(newId.value)
                                                     && h.started == old(h.started) + {newId.value}
    ensures info.Some? && newId.Some? && !startOk ==> r == Err(StartFailed(newId.value)) && h.started == old(h.started)
    ensures r.Ok? ==> info.Some? && r.value != info.value.id && r.value in h.started
    ensures StartsFollowCreates(old(h.log)) ==> StartsFollowCreates(h.log)
  {
    var containerId := SelectTarget(opts.target, args, scanned);
    var found := GetContainerFromID(h, containerId);
    newId, startOk := None, false;
    if found.Err? {
      info := None;
      r := Err(found.error);
      if StartsFollowCreates(old(h.log)) {
        AppendNoStart(old(h.log), Inspect(containerId, None));
      }
      return;
    }
    var containerInfo := found.value;
    info := Some(containerInfo);
    var cmd := ParseCommand(opts.cmd);
    ghost var afterInspect := h.log;
    r, newId, startOk := CreateAndStartContainer(h, opts.image, opts.name, containerInfo.id, cmd, opts.interactive);
    if StartsFollowCreates(old(h.log)) {
      AppendNoStart(old(h.log), Inspect(containerId, info));
      ProvisionCallsOrdered(afterInspect, BuildConfig(opts.image, cmd, opts.interactive),
                            BuildHostConfig(containerInfo.id), opts.name, newId, startOk);
    }
  }

  /** With no flags, the target comes from the first argument and the command runs `sleep infinity` directly. */
  lemma FlagDefaultsRun(args: seq<string>, scanned: string)
    requires |args| > 0 && args[0] != ""
    ensures SelectTarget(FlagDefaults.target, args, scanned) == args[0]
    ensures ParseCommand(FlagDefaults.cmd) == ["sleep", "infinity"]
    ensures !Interactive(BuildConfig(FlagDefaults.image, ParseCommand(FlagDefaults.cmd), FlagDefaults.interactive))
  {
    ParseCommandFlagDefault();
  }
}
