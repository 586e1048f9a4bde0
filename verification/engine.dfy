/**
 * What the tool sees of the host: the container engine behind its client
 * (inspect, create, start) and the files under the runtime state directory
 * (stat, read, write). The engine and the file system answer as they please
 * within what they promise, so each primitive here chooses its answer freely;
 * every call and its answer is appended to a log, in order.
 */
module Engine {
  import opened Outcomes
  import opened Configs

  newtype byte = b: int | 0 <= b < 256

  /** What inspection reports of a container; `id` is the engine's full, canonical ID. */
  datatype Descriptor = Descriptor(id: string, name: string, status: string, image: string)

  /** One call the tool made, with the answer it got. */
  datatype Event =
    | Inspect(ref: string, info: Option<Descriptor>)
    | Create(config: ContainerConfig, host: HostConfig, name: string, newId: Option<string>)
    | Start(id: string, ok: bool)
    | Stat(path: string, present: bool)
    | Read(path: string, ok: bool)
    | Write(path: string, data: seq<byte>, ok: bool)

  /** A string longer than every string of `s`; it shows that `CreateContainer` can always pick a new ID. */
  ghost function LengthBound(s: set<string>): (n: nat)
    ensures forall x :: x in s ==> |x| < n
    decreases s
  {
    if s == {} then 1
    else
      var x :| x in s;
      var m := LengthBound(s - {x});
      if |x| < m then m else |x| + 1
  }

  /** Some non-empty ID is always unused, so the engine's choice in `CreateContainer` exists. */
  lemma FreshIdExists(s: set<string>)
    ensures exists id :: id != "" && id !in s
  {
    var id := seq(LengthBound(s), _ => 'f');
    assert id !in s;
  }

  class Host {
    /** Containers that exist in the engine. */
    var created: set<string>
    /** Containers the engine has started. */
    var started: set<string>
    /** Every call made so far, with its answer. */
    var log: seq<Event>
    /** The host files, by absolute path. */
    var files: map<string, seq<byte>>

    ghost predicate Valid()
      reads this
    {
      started <= created && "" !in created
    }

    constructor (existing: set<string>, running: set<string>, disk: map<string, seq<byte>>)
      requires running <= existing && "" !in existing
      ensures Valid()
      ensures created == existing && started == running && files == disk && log == []
    {
      created, started, files, log := existing, running, disk, [];
    }

    /**
     * Look a container up; on success the answer names an existing container
     * by its full ID. The client refuses an empty reference before asking.
     */
    method InspectContainer(ref: string) returns (answer: Option<Descriptor>)
      modifies this`log
      ensures answer.Some? ==> answer.value.id in created
      ensures ref == "" ==> answer.None?
      ensures log == old(log) + [Inspect(ref, answer)]
    {
      if * {
        answer := None;
      } else if ref == "" || created == {} {
        answer := None;
      } else {
        var id :| id in created;
        var name: string, status: string, image: string :| true;
        answer := Some(Descriptor(id, name, status, image));
      }
      log := log + [Inspect(ref, answer)];
    }

    /** Create a container; on success it exists under a new, non-empty ID. */
    method CreateContainer(config: ContainerConfig, host: HostConfig, name: string) returns (answer: Option<string>)
      requires Valid()
      modifies this`created, this`log
      ensures Valid()
      ensures answer.Some? ==> answer.value != "" && answer.value !in old(created)
      ensures created == if answer.Some? then old(created) + {answer.value} else old(created)
      ensures log == old(log) + [Create(config, host, name, answer)]
    {
      if * {
        answer := None;
      } else {
        FreshIdExists(created);
        var id :| id != "" && id !in created;
        answer := Some(id);
        created := created + {id};
      }
      log := log + [Create(config, host, name, answer)];
    }

    /** Start a container named by its full ID; only an existing one can start. */
    method StartContainer(id: string) returns (ok: bool)
      requires Valid()
      modifies this`started, this`log
      ensures Valid()
      ensures ok ==> id in created
      ensures started == if ok then old(started) + {id} else old(started)
      ensures log == old(log) + [Start(id, ok)]
    {
      if * {
        ok := false;
      } else {
        ok := id in created;
      }
      if ok {
        started := started + {id};
      }
      log := log + [Start(id, ok)];
    }

    /** Whether a file exists at `path`. */
    method StatFile(path: string) returns (present: bool)
      modifies this`log
      ensures present == (path in files)
      ensures log == old(log) + [Stat(path, present)]
    {
      present := path in files;
      log := log + [Stat(path, present)];
    }

    /** Read a whole file; a read can fail even when the file is there (permissions). */
    method ReadFile(path: string) returns (data: Option<seq<byte>>)
      modifies this`log
      ensures data.Some? ==> path in files && data.value == files[path]
      ensures log == old(log) + [Read(path, data.Some?)]
    {
      if * {
        data := None;
      } else if path in files {
        data := Some(files[path]);
      } else {
        data := None;
      }
      log := log + [Read(path, data.Some?)];
    }

    /**
     * Create or truncate `path` and write `data` to it. A failed write leaves
     * the file as it was, or holds a prefix of `data` (none of it when the
     * truncation went through and the write did not, all of it when only the
     * final close failed); no other file changes.
     */
    method WriteFile(path: string, data: seq<byte>) returns (ok: bool)
      modifies this`files, this`log
      ensures ok ==> files == old(files)[path := data]
      ensures files - {path} == old(files) - {path}
      ensures !ok ==> files == old(files) || (path in files && files[path] <= data)
      ensures log == old(log) + [Write(path, data, ok)]
    {
      if * {
        ok := true;
        files := files[path := data];
      } else if * {
        ok := false;
      } else {
        ok := false;
        var k :| 0 <= k <= |data|;
        files := files[path := data[..k]];
      }
      log := log + [Write(path, data, ok)];
    }
  }
}
