/**
 * The command of cmd/root.go as the stateful program it is: the package-level
 * `filePairs` and `dirPairs`, the go-getter client's `Mode`, and the history of
 * everything done to the outside world. Every method is proved to append
 * exactly the events, and to return exactly the result, that the matching
 * function of module Pipeline describes.
 */
module Cmd {
  import opened Wrappers
  import opened Pairs
  import opened Pipeline

  class Cli {
    /** The collaborators: templates, globbing, go-getter, the file system. */
    const env: Env
    /** cmd/root.go:27, the file pairs collected by runRootCmd. */
    var filePairs: seq<Pair>
    /** cmd/root.go:28, the directory pairs collected by runRootCmd. */
    var dirPairs: seq<Pair>
    /** cmd/root.go:31, the shared client's Mode. */
    var mode: ClientMode
    /** Everything done to the outside world so far. */
    var trace: History

    /** The package state after mainPreRun: no pairs yet, a client without a mode. */
    constructor (env: Env)
      ensures this.env == env
      ensures filePairs == [] && dirPairs == [] && mode == ModeInvalid && trace == []
    {
      this.env := env;
      filePairs, dirPairs, mode, trace := [], [], ModeInvalid, [];
    }

    /** The package state as one value. */
    function Snapshot(): State
      reads this
    {
      State(filePairs, dirPairs, mode, trace)
    }

    /** execTemplateString (cmd/root.go:307-312). */
    method ExecTemplateString(body: string) returns (r: Option<string>)
      modifies this`trace
      ensures r == env.render(body)
      ensures trace == old(trace) + [Render(body)]
    {
      r := env.render(body);
      trace := trace + [Render(body)];
    }

    /** c.Get() with the client's current mode. */
    method ClientGet(src: string, dst: string) returns (ok: bool)
      modifies this`trace
      ensures ok == old(env.get(trace, mode, src, dst))
      ensures trace == old(trace) + [Get(mode, src, dst)]
    {
      ok := env.get(trace, mode, src, dst);
      trace := trace + [Get(mode, src, dst)];
    }

    /** doublestar.Glob: the matches of a pattern, or `None` for a malformed one. */
    method GlobMatches(pattern: string) returns (r: Option<seq<string>>)
      modifies this`trace
      ensures r == old(env.glob(trace, pattern))
      ensures trace == old(trace) + [Glob(pattern)]
    {
      r := env.glob(trace, pattern);
      trace := trace + [Glob(pattern)];
    }

    /** os.Stat(path) succeeding on a directory. */
    method IsLocalDirectory(path: string) returns (b: bool)
      ensures b == env.isLocalDir(trace, path)
    {
      b := env.isLocalDir(trace, path);
    }

    /** copy.Copy of a local directory. */
    method CopyDirectory(src: string, dst: string) returns (ok: bool)
      modifies this`trace
      ensures ok == old(env.copyDir(trace, src, dst))
      ensures trace == old(trace) + [CopyDir(src, dst)]
    {
      ok := env.copyDir(trace, src, dst);
      trace := trace + [CopyDir(src, dst)];
    }

    /** ioutil.TempFile: the name of a fresh temporary file. */
    method TempFileName() returns (r: Option<string>)
      modifies this`trace
      ensures r == old(env.tempFile(trace))
      ensures trace == old(trace) + (if r.Some? then [TempFile(r.value)] else [])
    {
      r := env.tempFile(trace);
      if r.Some? {
        trace := trace + [TempFile(r.value)];
      }
    }

    /** ioutil.ReadFile. */
    method ReadFileText(path: string) returns (r: Option<string>)
      modifies this`trace
      ensures r == old(env.readFile(trace, path))
      ensures trace == old(trace) + [ReadFile(path)]
    {
      r := env.readFile(trace, path);
      trace := trace + [ReadFile(path)];
    }

    /** ioutil.WriteFile. */
    method WriteFileText(path: string, body: string) returns (ok: bool)
      modifies this`trace
      ensures ok == old(env.writeFile(trace, path, body))
      ensures trace == old(trace) + [WriteFile(path, body)]
    {
      ok := env.writeFile(trace, path, body);
      trace := trace + [WriteFile(path, body)];
    }

    /** os.Stat, reduced to what parseFileDestinationTemplates looks at. */
    method StatPath(path: string) returns (r: StatResult)
      ensures r == env.stat(trace, path)
    {
      r := env.stat(trace, path);
    }

    /** os.Chmod, whose error cmd/root.go:300 ignores. */
    method ChmodPath(path: string, perm: nat)
      modifies this`trace
      ensures trace == old(trace) + [Chmod(path, perm)]
    {
      trace := trace + [Chmod(path, perm)];
    }

    /** parseFilePairs (cmd/root.go:196-215): split every declaration, then render both halves. */
    method ParseFilePairs(decls: seq<string>) returns (r: Result<seq<Pair>, Error>)
      modifies this`trace
      ensures var s := FilePairs(env, decls); r == s.result && trace == old(trace) + s.events
    {
      var res: seq<Pair> := [];
      for i := 0 to |decls|
        invariant res == SplitAll(decls[..i])
        invariant trace == old(trace)
      {
        SplitAllSnoc(decls, i);
        res := res + [ParseDeclaration(decls[i])];
      }
      assert decls[..|decls|] == decls;
      r := RenderAll(res);
    }

    /** The render loop of parseFilePairs (cmd/root.go:206-213). */
    method RenderAll(raw: seq<Pair>) returns (r: Result<seq<Pair>, Error>)
      modifies this`trace
      ensures var s := RenderPairs(env, raw); r == s.result && trace == old(trace) + s.events
    {
      var out: seq<Pair> := [];
      ghost var evs: seq<Event> := [];
      assert raw[0..] == raw;
      ThenNil(RenderPairs(env, raw));
      for i := 0 to |raw|
        invariant trace == old(trace) + evs
        invariant RenderPairs(env, raw) == Then(out, evs, RenderPairs(env, raw[i..]))
      {
        var src := ExecTemplateString(raw[i].source);
        if src.None? {
          RenderPairsSourceFails(env, raw, i, out, evs);
          return Err(RenderFailed(raw[i].source));
        }
        var dst := ExecTemplateString(raw[i].dest);
        AppendAssoc(old(trace), evs + [Render(raw[i].source)], [Render(raw[i].dest)]);
        AppendAssoc(old(trace), evs, [Render(raw[i].source), Render(raw[i].dest)]);
        assert evs + [Render(raw[i].source)] + [Render(raw[i].dest)] == evs + [Render(raw[i].source), Render(raw[i].dest)];
        if dst.None? {
          RenderPairsDestFails(env, raw, i, out, evs);
          return Err(RenderFailed(raw[i].dest));
        }
        RenderPairsStep(env, raw, i, out, evs);
        out, evs := out + [Pair(src.value, dst.value)], evs + [Render(raw[i].source), Render(raw[i].dest)];
      }
      assert raw[|raw|..] == [];
      ThenEmpty(out, evs);
      return Ok(out);
    }

    /** parseGlobs (cmd/root.go:217-236): expand every pattern, then parse the matches as pairs. */
    method ParseGlobs(globs: seq<string>) returns (r: Result<seq<Pair>, Error>)
      modifies this`trace
      ensures var s := GlobPairs(env, old(trace), globs); r == s.result && trace == old(trace) + s.events
    {
      var globTmp := ExpandPatterns(globs);
      ghost var g := ExpandGlobs(env, old(trace), globs);
      if globTmp.Err? {
        GlobPairsMalformed(env, old(trace), globs, globTmp.error, g.events);
        return Err(globTmp.error);
      }
      GlobPairsExpanded(env, old(trace), globs, globTmp.value, g.events);
      ghost var f := FilePairs(env, globTmp.value);
      r := ParseFilePairs(globTmp.value);
      AppendAssoc(old(trace), g.events, f.events);
    }

    /** The expansion loop of parseGlobs (cmd/root.go:220-231): all matches, in pattern order. */
    method ExpandPatterns(globs: seq<string>) returns (r: Result<seq<string>, Error>)
      modifies this`trace
      ensures var s := ExpandGlobs(env, old(trace), globs); r == s.result && trace == old(trace) + s.events
    {
      var globTmp: seq<string> := [];
      ghost var evs: seq<Event> := [];
      assert globs[0..] == globs;
      ThenNil(ExpandGlobs(env, trace, globs));
      for i := 0 to |globs|
        invariant trace == old(trace) + evs
        invariant ExpandGlobs(env, old(trace), globs) == Then(globTmp, evs, ExpandGlobs(env, trace, globs[i..]))
      {
        ghost var h := trace;
        var f := GlobMatches(globs[i]);
        AppendAssoc(old(trace), evs, [Glob(globs[i])]);
        if f.None? {
          ExpandGlobsFails(env, globs, i, h, globTmp, evs);
          return Err(GlobFailed(globs[i]));
        }
        ExpandGlobsStep(env, globs, i, h, globTmp, evs);
        globTmp, evs := globTmp + f.value, evs + [Glob(globs[i])];
      }
      assert globs[|globs|..] == [];
      ThenEmpty(globTmp, evs);
      return Ok(globTmp);
    }

    /** fetchDirectories (cmd/root.go:238-263): copy local directories, fetch everything else. */
    method FetchDirectories(dirs: seq<Pair>) returns (r: Result<(), Error>)
      modifies this`trace, this`mode
      ensures var s := FetchDirs(env, old(trace), dirs); r == s.result && trace == old(trace) + s.events
      ensures mode == ModeDir
    {
      mode := ModeDir;
      ghost var evs: seq<Event> := [];
      assert dirs[0..] == dirs;
      AfterNil(FetchDirs(env, trace, dirs));
      for i := 0 to |dirs|
        invariant mode == ModeDir
        invariant trace == old(trace) + evs
        invariant FetchDirs(env, old(trace), dirs) == After(evs, FetchDirs(env, trace, dirs[i..]))
      {
        ghost var h := trace;
        var d := dirs[i];
        var local := IsLocalDirectory(d.source);
        if local {
          var ok := CopyDirectory(d.source, d.dest);
          AppendAssoc(old(trace), evs, [CopyDir(d.source, d.dest)]);
          if !ok {
            FetchDirsFails(env, dirs, i, h, evs);
            return Err(CopyFailed(d.source, d.dest));
          }
          FetchDirsStep(env, dirs, i, h, evs);
          evs := evs + [CopyDir(d.source, d.dest)];
          continue;
        }
        var ok := ClientGet(d.source, d.dest);
        AppendAssoc(old(trace), evs, [Get(ModeDir, d.source, d.dest)]);
        if !ok {
          FetchDirsFails(env, dirs, i, h, evs);
          return Err(GetFailed(d.source, d.dest));
        }
        FetchDirsStep(env, dirs, i, h, evs);
        evs := evs + [Get(ModeDir, d.source, d.dest)];
      }
      assert dirs[|dirs|..] == [];
      AfterEmpty(evs);
      return Ok(());
    }

    /** fetchFiles (cmd/root.go:265-281): fetch every pair in file mode, skipping in-place ones. */
    method FetchFiles(files: seq<Pair>) returns (r: Result<(), Error>)
      modifies this`trace, this`mode
      ensures var s := Pipeline.FetchFiles(env, old(trace), files); r == s.result && trace == old(trace) + s.events
      ensures mode == ModeFile
    {
      mode := ModeFile;
      ghost var evs: seq<Event> := [];
      assert files[0..] == files;
      AfterNil(Pipeline.FetchFiles(env, trace, files));
      for i := 0 to |files|
        invariant mode == ModeFile
        invariant trace == old(trace) + evs
        invariant Pipeline.FetchFiles(env, old(trace), files) == After(evs, Pipeline.FetchFiles(env, trace, files[i..]))
      {
        ghost var h := trace;
        var f := files[i];
        if f.source == f.dest {
          FetchFilesSkip(env, files, i, h);
          continue;
        }
        var ok := ClientGet(f.source, f.dest);
        AppendAssoc(old(trace), evs, [Get(ModeFile, f.source, f.dest)]);
        if !ok {
          FetchFilesFails(env, files, i, h, evs);
          return Err(GetFailed(f.source, f.dest));
        }
        FetchFilesStep(env, files, i, h, evs);
        evs := evs + [Get(ModeFile, f.source, f.dest)];
      }
      assert files[|files|..] == [];
      AfterEmpty(evs);
      return Ok(());
    }

    /** execTemplateFile (cmd/root.go:314-333): render a file where it lies. */
    method ExecTemplateFile(fileName: string) returns (r: Result<(), Error>)
      modifies this`trace
      ensures var s := ExecFile(env, old(trace), fileName); r == s.result && trace == old(trace) + s.events
    {
      var buff := ReadFileText(fileName);
      if buff.None? {
        return Err(ReadFailed(fileName));
      }
      var body := ExecTemplateString(buff.value);
      if body.None? {
        return Err(RenderFailed(buff.value));
      }
      assert trace == old(trace) + [ReadFile(fileName), Render(buff.value)];
      var ok := WriteFileText(fileName, body.value);
      if !ok {
        return Err(WriteFailed(fileName));
      }
      return Ok(());
    }

    /** parseFileDestinationTemplates (cmd/root.go:283-305): render every destination, then copy its source's permissions. */
    method ParseFileDestinationTemplates(files: seq<Pair>) returns (r: Result<(), Error>)
      modifies this`trace
      ensures var s := Templates(env, old(trace), files); r == s.result && trace == old(trace) + s.events
    {
      ghost var evs: seq<Event> := [];
      for i := 0 to |files|
        invariant trace == old(trace) + evs
        invariant Templates(env, old(trace), files[..i]) == Step(Ok(()), evs)
      {
        ghost var t := TemplateFile(env, trace, files[i]);
        TemplatesSnoc(env, old(trace), files, i, evs);
        var x := ExecTemplatePair(files[i]);
        AppendAssoc(old(trace), evs, t.events);
        if x.Err? {
          TemplatesFailed(env, old(trace), files, i + 1);
          return x;
        }
        evs := evs + t.events;
      }
      assert files[..|files|] == files;
      return Ok(());
    }

    /**
     * One round of parseFileDestinationTemplates (cmd/root.go:285-302): render the
     * destination in place, then give it the source's permission bits.
     */
    method ExecTemplatePair(v: Pair) returns (r: Result<(), Error>)
      modifies this`trace
      ensures var s := TemplateFile(env, old(trace), v); r == s.result && trace == old(trace) + s.events
    {
      var sourcePath, destPath := AbsPath(env, v.source), AbsPath(env, v.dest);
      var x := ExecTemplateFile(v.dest);
      if x.Err? {
        return x;
      }
      ghost var t := trace;
      if sourcePath != destPath {
        var info := StatPath(sourcePath);
        if info.StatFailed? {
          return Err(StatPanicked(sourcePath));
        }
        if info.Found? {
          ChmodPath(destPath, info.perm);
        }
      }
      assert trace == old(trace) + (t[|old(trace)|..] + CopyPerm(env, t, v).events);
      return Ok(());
    }

    /**
     * The fetch of one manifest (cmd/root.go:138-168): render the reference, fetch
     * it into a temporary file with the client in file mode, read and unmarshal it.
     */
    method LoadManifestFile(v: string) returns (r: Result<Manifest, Error>)
      requires mode == ModeFile
      modifies this`trace
      ensures var s := LoadManifest(env, old(trace), v); r == s.result && trace == old(trace) + s.events
    {
      var ref := ExecTemplateString(v);
      if ref.None? {
        return Err(RenderFailed(v));
      }
      var tmp := TempFileName();
      if tmp.None? {
        return Err(TempFileFailed);
      }
      AppendAssoc(old(trace), [Render(v)], [TempFile(tmp.value)]);
      assert [Render(v)] + [TempFile(tmp.value)] == [Render(v), TempFile(tmp.value)];
      var ok := ClientGet(ref.value, tmp.value);
      AppendAssoc(old(trace), [Render(v), TempFile(tmp.value)], [Get(ModeFile, ref.value, tmp.value)]);
      assert [Render(v), TempFile(tmp.value)] + [Get(ModeFile, ref.value, tmp.value)] ==
        [Render(v), TempFile(tmp.value), Get(ModeFile, ref.value, tmp.value)];
      if !ok {
        return Err(GetFailed(ref.value, tmp.value));
      }
      var buff := ReadFileText(tmp.value);
      AppendAssoc(old(trace), [Render(v), TempFile(tmp.value), Get(ModeFile, ref.value, tmp.value)], [ReadFile(tmp.value)]);
      assert [Render(v), TempFile(tmp.value), Get(ModeFile, ref.value, tmp.value)] + [ReadFile(tmp.value)] ==
        [Render(v), TempFile(tmp.value), Get(ModeFile, ref.value, tmp.value), ReadFile(tmp.value)];
      if buff.None? {
        return Err(ReadFailed(tmp.value));
      }
      var m := env.unmarshalManifest(buff.value);
      if m.None? {
        return Err(ManifestInvalid(ref.value));
      }
      return Ok(m.value);
    }

    /** One round of parseManifests' loop (cmd/root.go:134-190). */
    method ParseManifest(v: string) returns (r: Result<seq<Pair>, Error>)
      modifies this`trace, this`mode
      ensures var s := OneManifest(env, old(trace), v); r == s.result && trace == old(trace) + s.events
      ensures mode == if ReachesDirFetch(env, old(trace), v) then ModeDir else ModeFile
    {
      mode := ModeFile;
      var m := LoadManifestFile(v);
      if m.Err? {
        return Err(m.error);
      }
      ghost var l := trace[|old(trace)|..];
      assert trace == old(trace) + l;
      var t := ParseFilePairs(m.value.dirs);
      ghost var d := FilePairs(env, m.value.dirs).events;
      AppendAssoc(old(trace), l, d);
      if t.Err? {
        return Err(t.error);
      }
      var fetched := FetchDirectories(t.value);
      ghost var f := FetchDirs(env, old(trace) + l + d, t.value).events;
      AppendAssoc(old(trace), l, d + f);
      AppendAssoc(old(trace) + l, d, f);
      if fetched.Err? {
        return Err(fetched.error);
      }
      var files := ParseGlobs(m.value.globs);
      ghost var g := GlobPairs(env, old(trace) + l + d + f, m.value.globs).events;
      AppendAssoc(old(trace), l, d + f + g);
      AppendAssoc(old(trace) + l, d + f, g);
      if files.Err? {
        return Err(files.error);
      }
      var t2 := ParseFilePairs(m.value.files);
      ghost var e := FilePairs(env, m.value.files).events;
      AppendAssoc(old(trace), l, d + f + g + e);
      AppendAssoc(old(trace) + l, d + f + g, e);
      if t2.Err? {
        return Err(t2.error);
      }
      return Ok(files.value + t2.value);
    }

    /** parseManifests (cmd/root.go:129-194): every manifest in turn, up to the first failure. */
    method ParseManifests(manifests: seq<string>) returns (r: Result<seq<Pair>, Error>)
      modifies this`trace, this`mode
      ensures var s := Manifests(env, old(trace), manifests); r == s.result && trace == old(trace) + s.events
      ensures mode == ModeAfterManifests(env, old(trace), manifests, old(mode))
    {
      var files: seq<Pair> := [];
      ghost var evs: seq<Event> := [];
      assert manifests[0..] == manifests;
      ThenNil(Manifests(env, trace, manifests));
      for i := 0 to |manifests|
        invariant trace == old(trace) + evs
        invariant Manifests(env, old(trace), manifests) == Then(files, evs, Manifests(env, trace, manifests[i..]))
        invariant ModeAfterManifests(env, old(trace), manifests, old(mode)) ==
          ModeAfterManifests(env, trace, manifests[i..], mode)
      {
        ghost var h := trace;
        ghost var m0 := mode;
        ghost var one := OneManifest(env, h, manifests[i]);
        var t := ParseManifest(manifests[i]);
        AppendAssoc(old(trace), evs, one.events);
        if t.Err? {
          ManifestsFails(env, manifests, i, h, files, evs, m0);
          return Err(t.error);
        }
        ManifestsStep(env, manifests, i, h, files, evs, m0);
        files, evs := files + t.value, evs + one.events;
      }
      assert manifests[|manifests|..] == [];
      ThenEmpty(files, evs);
      return Ok(files);
    }

    /**
     * runRootCmd's collecting stages (cmd/root.go:88-110): each appends its pairs
     * to the package slices, and the first that fails is fatal.
     */
    method CollectFlags(flags: Flags) returns (stop: Option<Outcome>)
      modifies this`filePairs, this`dirPairs, this`mode, this`trace
      ensures (stop, Snapshot()) == Collect(env, old(Snapshot()), flags)
    {
      var files := ParseManifests(flags.manifests);
      if files.Err? {
        return Some(Fatal(ManifestStage, files.error));
      }
      filePairs := filePairs + files.value;
      var dirs := ParseFilePairs(flags.dirs);
      if dirs.Err? {
        return Some(Fatal(DirFlagStage, dirs.error));
      }
      dirPairs := dirPairs + dirs.value;
      files := ParseGlobs(flags.globs);
      if files.Err? {
        return Some(Fatal(GlobStage, files.error));
      }
      filePairs := filePairs + files.value;
      files := ParseFilePairs(flags.files);
      if files.Err? {
        return Some(Fatal(FileFlagStage, files.error));
      }
      filePairs := filePairs + files.value;
      return None;
    }

    /**
     * runRootCmd's executing stages (cmd/root.go:112-126): fetch the directories,
     * then the files, then render the destinations; the first that fails is fatal.
     */
    method ExecutePairs() returns (out: Outcome)
      modifies this`mode, this`trace
      ensures (out, Snapshot()) == Execute(env, old(Snapshot()))
    {
      var e := FetchDirectories(dirPairs);
      if e.Err? {
        return Fatal(FetchDirStage, e.error);
      }
      e := FetchFiles(filePairs);
      if e.Err? {
        return Fatal(FetchFileStage, e.error);
      }
      e := ParseFileDestinationTemplates(filePairs);
      if e.Err? {
        return Fatal(TemplateStage, e.error);
      }
      return Completed;
    }

    /**
     * runRootCmd (cmd/root.go:77-127): with no flag at all, show the help; otherwise
     * collect the pairs of the manifests, the dir flags, the globs and the file flags,
     * fetch the directories, fetch the files, and render every destination, stopping
     * with log.Fatalf at the first stage that fails.
     */
    method RunRootCmd(flags: Flags) returns (out: Outcome)
      modifies this`filePairs, this`dirPairs, this`mode, this`trace
      ensures (out, Snapshot()) == RunRoot(env, old(Snapshot()), flags)
    {
      if flags.files == [] && flags.dirs == [] && flags.globs == [] && flags.manifests == [] {
        return ShowHelp;
      }
      var stop := CollectFlags(flags);
      if stop.Some? {
        return stop.value;
      }
      out := ExecutePairs();
    }
  }
}
