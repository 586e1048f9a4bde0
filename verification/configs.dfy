/**
 * The two records handed to the engine's create call: the host configuration,
 * which carries the namespace-sharing modes, and the container configuration,
 * which carries the image, the command and the terminal flags.
 */
module Configs {
  import opened Outcomes

  /** A mode of this form joins the namespace of the container it names. */
  const ContainerPrefix: string := "container:"

  /** The part of the engine's host configuration this tool sets; an empty mode means "unset". */
  datatype HostConfig = HostConfig(autoRemove: bool, pidMode: string, networkMode: string, ipcMode: string)

  /** The part of the engine's container configuration this tool sets. */
  datatype ContainerConfig = ContainerConfig(
    image: string,
    cmd: seq<string>,
    attachStdin: bool,
    attachStdout: bool,
    attachStderr: bool,
    openStdin: bool,
    stdinOnce: bool,
    tty: bool)

  /** The container a namespace mode joins, if it is a `container:<id>` mode. */
  function SharedContainer(mode: string): Option<string>
  {
    if |ContainerPrefix| <= |mode| && mode[..|ContainerPrefix|] == ContainerPrefix
    then Some(mode[|ContainerPrefix|..])
    else None
  }

  lemma SharedContainerOfMode(id: string)
    ensures SharedContainer(ContainerPrefix + id) == Some(id)
  {
    var m := ContainerPrefix + id;
    assert m[..|ContainerPrefix|] == ContainerPrefix;
    assert m[|ContainerPrefix|..] == id;
  }

  /**
   * The host configuration of the new container: never auto-removed; with a
   * source ID, its PID, network and IPC namespaces all join that one
   * container; without one, all three modes stay unset.
   */
  function BuildHostConfig(sourceId: string): (hc: HostConfig)
    ensures !hc.autoRemove
    ensures hc.pidMode == hc.networkMode == hc.ipcMode
    ensures sourceId != "" ==> hc.pidMode == ContainerPrefix + sourceId
    ensures sourceId == "" ==> hc.pidMode == ""
    ensures SharedContainer(hc.pidMode) == if sourceId == "" then None else Some(sourceId)
  {
    SharedContainerOfMode(sourceId);
    var hc := HostConfig(autoRemove := false, pidMode := "", networkMode := "", ipcMode := "");
    if sourceId != "" then
      var mode := ContainerPrefix + sourceId;
      hc.(pidMode := mode, networkMode := mode, ipcMode := mode)
    else
      hc
  }

  /** Different sources give different host configurations: the source can be read back. */
  lemma BuildHostConfigInjective(a: string, b: string)
    requires BuildHostConfig(a) == BuildHostConfig(b)
    ensures a == b
  {
  }

  /** All five terminal flags on. */
  predicate Interactive(c: ContainerConfig)
  {
    c.attachStdin && c.attachStdout && c.attachStderr && c.openStdin && c.tty
  }

  /** All five terminal flags off. */
  predicate Detached(c: ContainerConfig)
  {
    !c.attachStdin && !c.attachStdout && !c.attachStderr && !c.openStdin && !c.tty
  }

  /**
   * The container configuration of the new container: image and command
   * passed through, stdin never closed after one attach, and one switch
   * setting all five terminal flags together.
   */
  function BuildConfig(image: string, cmd: seq<string>, interactive: bool): (c: ContainerConfig)
    ensures c.image == image && c.cmd == cmd
    ensures !c.stdinOnce
    ensures interactive ==> Interactive(c)
    ensures !interactive ==> Detached(c)
  {
    ContainerConfig(
      image := image,
      cmd := cmd,
      attachStdin := interactive,
      attachStdout := interactive,
      attachStderr := interactive,
      openStdin := interactive,
      stdinOnce := false,
      tty := interactive)
  }
}
