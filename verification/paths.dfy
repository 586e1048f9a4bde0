/**
 * The runtime state file of a container, `<runtime root>/<id>/state.json`,
 * built the way Go's `filepath.Join` builds it: the parts are joined with
 * '/' and the result is cleaned lexically (empty and "." elements dropped,
 * ".." removing the element before it, never climbing above '/').
 */
module Paths {

  /** The runc state directory of the Docker daemon. */
  const RuntimeRoot: string := "/var/run/docker/runtime-runc/moby"
  const RootDirs: seq<string> := ["var", "run", "docker", "runtime-runc", "moby"]
  const StateFile: string := "state.json"

  /** An element that cleaning keeps as it is: not empty, not "." or "..", no separator. */
  predicate Plain(e: string)
  {
    e != "" && e != "." && e != ".." && '/' !in e
  }

  predicate AllPlain(es: seq<string>)
  {
    forall i :: 0 <= i < |es| ==> Plain(es[i])
  }

  predicate NoSlash(es: seq<string>)
  {
    forall i :: 0 <= i < |es| ==> '/' !in es[i]
  }

  /** The elements of `s` between separators (Go's `strings.Split(s, "/")`). */
  function Split(s: string): (parts: seq<string>)
    ensures |parts| >= 1
    ensures NoSlash(parts)
  {
    if s == [] then [[]]
    else if s[0] == '/' then [[]] + Split(s[1..])
    else
      var t := Split(s[1..]);
      [[s[0]] + t[0]] + t[1..]
  }

  /** The elements that remain after cleaning a rooted path, in order. */
  function Walk(elems: seq<string>): seq<string>
  {
    if elems == [] then []
    else
      var prev := Walk(elems[..|elems| - 1]);
      var e := elems[|elems| - 1];
      if e == "" || e == "." then prev
      else if e == ".." then (if prev == [] then [] else prev[..|prev| - 1])
      else prev + [e]
  }

  function JoinSlash(segs: seq<string>): string
  {
    if segs == [] then "" else if |segs| == 1 then segs[0] else segs[0] + "/" + JoinSlash(segs[1..])
  }

  /**
   * Go's `filepath.Clean` on a path that starts at '/': the result is rooted
   * too, and it is "/" or has only plain elements (no empty, ".", ".." ones).
   */
  function CleanRooted(p: string): (r: string)
    requires p != [] && p[0] == '/'
    ensures r != [] && r[0] == '/'
    ensures r == "/" || AllPlain(Split(r[1..]))
  {
    var elems := Walk(Split(p));
    WalkAllPlain(Split(p));
    if elems != [] then
      SplitJoinSlash(elems);
      "/" + JoinSlash(elems)
    else
      "/"
  }

  /**
   * `filepath.Join(RuntimeRoot, id, "state.json")`. Join leaves out an empty
   * `id`; writing the separator anyway changes nothing, since cleaning drops
   * the empty element it makes.
   */
  function StatePath(id: string): (p: string)
    ensures |p| > |StateFile| && p[|p| - |StateFile| - 1..] == "/" + StateFile
  {
    CleanKeepsStateFile(RuntimeRoot + "/" + id);
    CleanRooted(RuntimeRoot + "/" + id + "/" + StateFile)
  }

  // ---------------------------------------------------------------------------

  lemma {:induction false} SplitPlain(w: string)
    requires '/' !in w
    ensures Split(w) == [w]
    decreases |w|
  {
    if w != [] {
      assert w[0] in w;
      assert forall c :: c in w[1..] ==> c in w;
      SplitPlain(w[1..]);
      assert w == [w[0]] + w[1..];
    }
  }

  lemma {:induction false} SplitSlash(a: string, b: string)
    ensures Split(a + "/" + b) == Split(a) + Split(b)
    decreases |a|
  {
    if a == [] {
      assert a + "/" + b == "/" + b;
      assert ("/" + b)[1..] == b;
    } else {
      var s := a + "/" + b;
      assert s[0] == a[0];
      assert s[1..] == a[1..] + "/" + b;
      SplitSlash(a[1..], b);
    }
  }

  /** Elements without a separator come back out of `Split` after `JoinSlash`. */
  lemma {:induction false} SplitJoinSlash(segs: seq<string>)
    requires segs != []
    requires forall i :: 0 <= i < |segs| ==> '/' !in segs[i]
    ensures Split(JoinSlash(segs)) == segs
    decreases |segs|
  {
    SplitPlain(segs[0]);
    if |segs| > 1 {
      SplitJoinSlash(segs[1..]);
      SplitSlash(segs[0], JoinSlash(segs[1..]));
    }
  }

  /** Cleaning leaves only plain elements. */
  lemma {:induction false} WalkAllPlain(elems: seq<string>)
    requires NoSlash(elems)
    ensures AllPlain(Walk(elems))
    decreases |elems|
  {
    if elems != [] {
      var init := elems[..|elems| - 1];
      assert NoSlash(init) by {
        forall i | 0 <= i < |init| ensures '/' !in init[i] { assert init[i] == elems[i]; }
      }
      var prev := Walk(init);
      WalkAllPlain(init);
      var e := elems[|elems| - 1];
      if e == ".." && prev != [] {
        assert forall i :: 0 <= i < |prev| - 1 ==> prev[..|prev| - 1][i] == prev[i];
      } else if e != "" && e != "." && e != ".." {
        assert Plain(e);
        assert forall i :: 0 <= i < |prev| ==> (prev + [e])[i] == prev[i];
      }
    }
  }

  /** A rooted directory joined with the state file cleans to a path that still ends in the state file. */
  lemma CleanKeepsStateFile(dir: string)
    requires dir != [] && dir[0] == '/'
    ensures var r := CleanRooted(dir + "/" + StateFile);
            |r| > |StateFile| && r[|r| - |StateFile| - 1..] == "/" + StateFile
  {
    var p := dir + "/" + StateFile;
    assert p[0] == '/';
    assert '/' !in StateFile;
    SplitPlain(StateFile);
    SplitSlash(dir, StateFile);
    var xs := Split(dir);
    assert Plain(StateFile);
    assert AllPlain([StateFile]);
    WalkPlainSuffix(xs, [StateFile]);
    var ys := Walk(xs);
    assert Walk(Split(p)) == ys + [StateFile];
    if ys == [] {
      assert ys + [StateFile] == [StateFile];
    } else {
      JoinSlashAppend(ys, [StateFile]);
    }
  }

  lemma {:induction false} WalkPlainSuffix(xs: seq<string>, ys: seq<string>)
    requires AllPlain(ys)
    ensures Walk(xs + ys) == Walk(xs) + ys
    decreases |ys|
  {
    if ys == [] {
      assert xs + ys == xs;
    } else {
      var init := ys[..|ys| - 1];
      assert AllPlain(init) by {
        forall i | 0 <= i < |init| ensures Plain(init[i]) { assert init[i] == ys[i]; }
      }
      WalkPlainSuffix(xs, init);
      var zs := xs + ys;
      assert zs[..|zs| - 1] == xs + init;
      assert zs[|zs| - 1] == ys[|ys| - 1];
      assert Plain(ys[|ys| - 1]);
      assert Walk(xs) + init + [ys[|ys| - 1]] == Walk(xs) + ys;
    }
  }

  lemma {:induction false} JoinSlashAppend(a: seq<string>, b: seq<string>)
    requires a != [] && b != []
    ensures JoinSlash(a + b) == JoinSlash(a) + "/" + JoinSlash(b)
    decreases |a|
  {
    if |a| == 1 {
      assert (a + b)[1..] == b;
    } else {
      assert (a + b)[1..] == a[1..] + b;
      JoinSlashAppend(a[1..], b);
    }
  }

  lemma RootJoin()
    ensures "/" + JoinSlash(RootDirs) == RuntimeRoot
  {
    ParentJoin();
    JoinSlashAppend(RootDirs[..4], ["moby"]);
    assert RootDirs[..4] + ["moby"] == RootDirs;
    assert "/var/run/docker/runtime-runc" + "/" + "moby" == RuntimeRoot;
  }

  lemma RootDirsPlain()
    ensures AllPlain(RootDirs + [StateFile])
  {
    assert '/' !in "var" && '/' !in "run" && '/' !in "docker";
    assert '/' !in "runtime-runc" && '/' !in "moby" && '/' !in "state.json";
    var es := RootDirs + [StateFile];
    assert es == ["var", "run", "docker", "runtime-runc", "moby", "state.json"];
  }

  /** The cleaned elements of the state path of `id`, before joining. */
  lemma StateElems(id: string)
    ensures Split(RuntimeRoot + "/" + id + "/" + StateFile) == [""] + RootDirs + Split(id) + [StateFile]
  {
    RootSplit();
    RootDirsPlain();
    var es := RootDirs + [StateFile];
    assert Plain(es[5]);
    SplitPlain(StateFile);
    SplitSlash(RuntimeRoot, id);
    SplitSlash(RuntimeRoot + "/" + id, StateFile);
  }

  lemma RootSplit()
    ensures Split(RuntimeRoot) == [""] + RootDirs
  {
    RootJoin();
    RootDirsPlain();
    var es := RootDirs + [StateFile];
    assert forall i :: 0 <= i < |RootDirs| ==> '/' !in RootDirs[i] by {
      forall i | 0 <= i < |RootDirs| ensures '/' !in RootDirs[i] { assert RootDirs[i] == es[i]; }
    }
    SplitJoinSlash(RootDirs);
    SplitSlash("", JoinSlash(RootDirs));
    assert "" + "/" + JoinSlash(RootDirs) == RuntimeRoot;
    assert Split("") == [""];
  }

  lemma WalkStatePlain(id: string)
    requires Plain(id)
    ensures Walk(Split(RuntimeRoot + "/" + id + "/" + StateFile)) == RootDirs + [id] + [StateFile]
  {
    StateElems(id);
    SplitPlain(id);
    RootDirsPlain();
    var es := RootDirs + [StateFile];
    var elems := RootDirs + [id] + [StateFile];
    assert AllPlain(elems) by {
      forall i | 0 <= i < |elems| ensures Plain(elems[i]) {
        if i < |RootDirs| { assert elems[i] == es[i]; }
        else if i == |RootDirs| { assert elems[i] == id; }
        else { assert elems[i] == es[i - 1]; }
      }
    }
    assert [""] + RootDirs + [id] + [StateFile] == [""] + elems;
    WalkPlainSuffix([""], elems);
    assert Walk([""]) == [];
    assert [] + elems == elems;
  }

  /** For a plain ID the state path is exactly the template, with nothing cleaned away. */
  lemma StatePathPlain(id: string)
    requires Plain(id)
    ensures StatePath(id) == RuntimeRoot + "/" + id + "/" + StateFile
  {
    WalkStatePlain(id);
    RootJoin();
    JoinSlashAppend(RootDirs + [id], [StateFile]);
    JoinSlashAppend(RootDirs, [id]);
    assert JoinSlash([id]) == id;
    assert JoinSlash([StateFile]) == StateFile;
  }

  /** With an empty ID the file sits directly in the runtime root. */
  lemma StatePathEmpty()
    ensures StatePath("") == RuntimeRoot + "/" + StateFile
  {
    WalkStateEmpty();
    RootJoin();
    JoinSlashAppend(RootDirs, [StateFile]);
    assert JoinSlash([StateFile]) == StateFile;
  }

  lemma WalkStateEmpty()
    ensures Walk(Split(RuntimeRoot + "/" + "" + "/" + StateFile)) == RootDirs + [StateFile]
  {
    StateElems("");
    RootDirsPlain();
    var es := RootDirs + [StateFile];
    var dirs := [""] + RootDirs;
    assert AllPlain(RootDirs) by {
      forall i | 0 <= i < |RootDirs| ensures Plain(RootDirs[i]) { assert RootDirs[i] == es[i]; }
    }
    assert AllPlain([StateFile]) by { assert StateFile == es[5]; }
    WalkPlainSuffix([""], RootDirs);
    assert Walk([""]) == [];
    assert (dirs + [""])[..|dirs|] == dirs;
    assert Walk(dirs + [""]) == RootDirs;
    WalkPlainSuffix(dirs + [""], [StateFile]);
  }

  /** Distinct plain IDs never share a state file. */
  lemma StatePathInjective(a: string, b: string)
    requires Plain(a) && Plain(b)
    requires StatePath(a) == StatePath(b)
    ensures a == b
  {
    StatePathPlain(a);
    StatePathPlain(b);
    var pa, pb := RuntimeRoot + "/" + a + "/" + StateFile, RuntimeRoot + "/" + b + "/" + StateFile;
    var k := |RuntimeRoot| + 1;
    assert |a| == |b|;
    assert pa[k..k + |a|] == a;
    assert pb[k..k + |b|] == b;
  }

  lemma WalkStateDotDot()
    ensures Walk(Split(RuntimeRoot + "/" + ".." + "/" + StateFile)) == RootDirs[..4] + [StateFile]
  {
    StateElems("..");
    SplitPlain("..");
    RootDirsPlain();
    WalkRootUp();
    var es := RootDirs + [StateFile];
    assert AllPlain([StateFile]) by { assert StateFile == es[5]; }
    WalkPlainSuffix([""] + RootDirs + [".."], [StateFile]);
  }

  /** A ".." right after the runtime root's directories cancels the last one. */
  lemma WalkRootUp()
    ensures Walk([""] + RootDirs + [".."]) == RootDirs[..4]
  {
    RootDirsPlain();
    var es := RootDirs + [StateFile];
    var dirs := [""] + RootDirs;
    var up := RootDirs[..4];
    assert AllPlain(up) by {
      forall i | 0 <= i < 4 ensures Plain(up[i]) { assert up[i] == es[i]; }
    }
    assert AllPlain([RootDirs[4]]) by { assert RootDirs[4] == es[4]; }
    WalkPlainSuffix([""], up);
    WalkPlainSuffix([""] + up, [RootDirs[4]]);
    assert Walk([""]) == [];
    assert [""] + up + [RootDirs[4]] == dirs;
    assert (dirs + [".."])[..|dirs|] == dirs;
  }

  lemma ParentJoin()
    ensures "/" + JoinSlash(RootDirs[..4]) == "/var/run/docker/runtime-runc"
  {
    var up := RootDirs[..4];
    assert up == ["var"] + (["run"] + (["docker"] + ["runtime-runc"]));
    JoinSlashAppend(["docker"], ["runtime-runc"]);
    JoinSlashAppend(["run"], ["docker"] + ["runtime-runc"]);
    JoinSlashAppend(["var"], ["run"] + (["docker"] + ["runtime-runc"]));
    assert JoinSlash(["var"]) == "var" && JoinSlash(["run"]) == "run";
    assert JoinSlash(["docker"]) == "docker" && JoinSlash(["runtime-runc"]) == "runtime-runc";
    ParentLiteral();
  }

  lemma ParentLiteral()
    ensures "/" + ("var" + "/" + ("run" + "/" + ("docker" + "/" + "runtime-runc"))) == "/var/run/docker/runtime-runc"
  {
  }

  /** Cleaning is not a formality: an ID of ".." names the state file one level up. */
  lemma StatePathDotDot()
    ensures StatePath("..") == "/var/run/docker/runtime-runc" + "/" + StateFile
  {
    WalkStateDotDot();
    ParentJoin();
    JoinSlashAppend(RootDirs[..4], [StateFile]);
    assert JoinSlash([StateFile]) == StateFile;
  }
}
