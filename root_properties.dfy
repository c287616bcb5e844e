/**
 * What runRootCmd (cmd/root.go:77-127) promises, proved about Pipeline.RunRoot:
 * help exactly when no flag is given, the order in which the pairs accumulate,
 * and the order of the execution phases that follow.
 */
module RootProperties {
  import opened Wrappers
  import opened Pairs
  import opened Pipeline
  import opened PipelineProperties

  /** runRootCmd shows the help, changing nothing, exactly when no flag is given. */
  lemma RunRootHelp(env: Env, s: State, flags: Flags)
    ensures (RunRoot(env, s, flags).0 == ShowHelp) <==> NoFlags(flags)
    ensures NoFlags(flags) ==> RunRoot(env, s, flags).1 == s
  {
    if !NoFlags(flags) {
      var c := Collect(env, s, flags);
      if c.0.None? {
        assert RunRoot(env, s, flags) == Execute(env, c.1);
      }
    }
  }

  /** The run got past the four collecting stages. */
  predicate Collected(out: Outcome) {
    out.Completed? || (out.Fatal? && (out.stage.FetchDirStage? || out.stage.FetchFileStage? || out.stage.TemplateStage?))
  }

  /**
   * When all four collecting stages succeed, the file pairs are the pairs there
   * were, then the manifests' pairs, then the glob pairs, then one rendered pair
   * per file flag; the dir pairs gained one rendered pair per dir flag.
   */
  lemma CollectPairs(env: Env, s: State, flags: Flags)
    requires Collect(env, s, flags).0.None?
    ensures var s' := Collect(env, s, flags).1;
      var m := Manifests(env, s.trace, flags.manifests);
      var d := FilePairs(env, flags.dirs);
      var g := GlobPairs(env, s.trace + m.events + d.events, flags.globs);
      var f := FilePairs(env, flags.files);
      m.result.Ok? && d.result.Ok? && g.result.Ok? && f.result.Ok?
      && s'.filePairs == s.filePairs + m.result.value + g.result.value + f.result.value
      && s'.dirPairs == s.dirPairs + d.result.value
      && |f.result.value| == |flags.files|
      && (forall i :: 0 <= i < |flags.files| ==>
            Renderable(env, ParseDeclaration(flags.files[i]))
            && f.result.value[i] == Rendered(env, ParseDeclaration(flags.files[i])))
      && |d.result.value| == |flags.dirs|
      && (forall i :: 0 <= i < |flags.dirs| ==>
            Renderable(env, ParseDeclaration(flags.dirs[i]))
            && d.result.value[i] == Rendered(env, ParseDeclaration(flags.dirs[i])))
  {
    FilePairsOutcome(env, flags.dirs);
    FilePairsOutcome(env, flags.files);
  }

  /**
   * The manifest stage is the fatal one exactly when parseManifests fails; the
   * run then stops with its error, both package slices as they were, and the
   * trace ending with the manifests' events.
   */
  lemma CollectManifestFatal(env: Env, s: State, flags: Flags)
    ensures var c := Collect(env, s, flags); var m := Manifests(env, s.trace, flags.manifests);
      ((c.0.Some? && c.0.value.stage.ManifestStage?) <==> m.result.Err?)
      && (m.result.Err? ==>
            c.0.value.error == m.result.error
            && c.1.filePairs == s.filePairs && c.1.dirPairs == s.dirPairs
            && c.1.trace == s.trace + m.events)
  {
  }

  /**
   * The dir-flag stage is the fatal one exactly when the manifests went through
   * and parsing the dir flags fails; the run then stops with that error, the
   * manifests' pairs collected, no dir pair added, and the trace ending with
   * the dir flags' renders.
   */
  lemma CollectDirFlagFatal(env: Env, s: State, flags: Flags)
    ensures var c := Collect(env, s, flags);
      var m := Manifests(env, s.trace, flags.manifests); var d := FilePairs(env, flags.dirs);
      ((c.0.Some? && c.0.value.stage.DirFlagStage?) <==> m.result.Ok? && d.result.Err?)
      && (m.result.Ok? && d.result.Err? ==>
            c.0.value.error == d.result.error
            && c.1.filePairs == s.filePairs + m.result.value && c.1.dirPairs == s.dirPairs
            && c.1.trace == s.trace + m.events + d.events)
  {
  }

  /**
   * The glob stage is the fatal one exactly when the stages before it went
   * through and parseGlobs fails; the run then stops with that error, and the
   * trace ends with the globs' events.
   */
  lemma CollectGlobFatal(env: Env, s: State, flags: Flags)
    ensures var c := Collect(env, s, flags);
      var m := Manifests(env, s.trace, flags.manifests); var d := FilePairs(env, flags.dirs);
      var g := GlobPairs(env, s.trace + m.events + d.events, flags.globs);
      ((c.0.Some? && c.0.value.stage.GlobStage?) <==> m.result.Ok? && d.result.Ok? && g.result.Err?)
      && (m.result.Ok? && d.result.Ok? && g.result.Err? ==>
            c.0.value.error == g.result.error
            && c.1.filePairs == s.filePairs + m.result.value && c.1.dirPairs == s.dirPairs + d.result.value
            && c.1.trace == s.trace + m.events + d.events + g.events)
  {
  }

  /**
   * The file-flag stage is the fatal one exactly when the stages before it went
   * through and parsing the file flags fails; the run then stops with that
   * error, and the trace ends with the file flags' renders.
   */
  lemma CollectFileFlagFatal(env: Env, s: State, flags: Flags)
    ensures var c := Collect(env, s, flags);
      var m := Manifests(env, s.trace, flags.manifests); var d := FilePairs(env, flags.dirs);
      var g := GlobPairs(env, s.trace + m.events + d.events, flags.globs); var f := FilePairs(env, flags.files);
      ((c.0.Some? && c.0.value.stage.FileFlagStage?) <==> m.result.Ok? && d.result.Ok? && g.result.Ok? && f.result.Err?)
      && (m.result.Ok? && d.result.Ok? && g.result.Ok? && f.result.Err? ==>
            c.0.value.error == f.result.error
            && c.1.filePairs == s.filePairs + m.result.value + g.result.value
            && c.1.dirPairs == s.dirPairs + d.result.value
            && c.1.trace == s.trace + m.events + d.events + g.events + f.events)
  {
  }

  /** The same, seen from runRootCmd: the final pairs once collection went through. */
  lemma RunRootPairs(env: Env, s: State, flags: Flags)
    requires Collected(RunRoot(env, s, flags).0)
    ensures !NoFlags(flags) && Collect(env, s, flags).0.None?
    ensures RunRoot(env, s, flags).1.filePairs == Collect(env, s, flags).1.filePairs
    ensures RunRoot(env, s, flags).1.dirPairs == Collect(env, s, flags).1.dirPairs
  {
  }

  /**
   * `trace` is `pre` followed by three phases: `d` only copies or fetches
   * directories, `f` only fetches files in file mode, never an in-place pair,
   * and `t` only reads, renders, writes and chmods.
   */
  predicate Phases(trace: History, pre: History, d: seq<Event>, f: seq<Event>, t: seq<Event>) {
    trace == pre + d + f + t
    && (forall e :: e in d ==> IsDirFetch(e))
    && (forall e :: e in f ==> IsFileFetch(e))
    && (forall e :: e in t ==> IsTemplateEvent(e))
  }

  /**
   * How far the three phases got: a failing fetch of directories or files ends
   * the run there; a complete run copied or fetched every directory pair, in
   * order, then fetched every
   * file pair not in place, then read and wrote every destination in order.
   */
  predicate Executed(out: Outcome, filePairs: seq<Pair>, dirPairs: seq<Pair>, d: seq<Event>, f: seq<Event>, t: seq<Event>) {
    (out.Fatal? && out.stage.FetchDirStage? ==> f == [] && t == [])
    && (out.Fatal? && out.stage.FetchFileStage? ==> t == [])
    && (out.Fatal? && out.stage.TemplateStage? ==> ReadPaths(t) <= Dests(filePairs))
    && (out.Completed? ==>
          |d| == |dirPairs|
          && (forall i :: 0 <= i < |d| ==>
                IsDirFetch(d[i]) && d[i].src == dirPairs[i].source && d[i].dst == dirPairs[i].dest)
          && f == FileGets(filePairs)
          && ReadPaths(t) == Dests(filePairs)
          && WritePaths(t) == Dests(filePairs))
  }

  /** The executing stages alone: the three phases, each cut short by a failure before it. */
  lemma ExecutePhases(env: Env, s: State)
    ensures var r := Execute(env, s);
      exists d, f, t :: Phases(r.1.trace, s.trace, d, f, t) && Executed(r.0, s.filePairs, s.dirPairs, d, f, t)
  {
    var (out, s') := Execute(env, s);
    var fd := FetchDirs(env, s.trace, s.dirPairs);
    FetchDirsOnlyDirs(env, s.trace, s.dirPairs);
    if fd.result.Err? {
      assert s'.trace == s.trace + fd.events + [] + [];
      assert Phases(s'.trace, s.trace, fd.events, [], []);
    } else {
      var t5 := s.trace + fd.events;
      var fe := Pipeline.FetchFiles(env, t5, s.filePairs);
      FetchFilesNeverInPlace(env, t5, s.filePairs);
      if fe.result.Err? {
        assert s'.trace == s.trace + fd.events + fe.events + [];
        assert Phases(s'.trace, s.trace, fd.events, fe.events, []) && Executed(out, s.filePairs, s.dirPairs, fd.events, fe.events, []);
      } else {
        var t6 := t5 + fe.events;
        var tm := Templates(env, t6, s.filePairs);
        TemplatesOnlyTemplateEvents(env, t6, s.filePairs);
        TemplatesPaths(env, t6, s.filePairs);
        FetchDirsOk(env, s.trace, s.dirPairs);
        FetchDirsPairs(env, s.trace, s.dirPairs);
        FetchFilesOk(env, t5, s.filePairs);
        assert Phases(s'.trace, s.trace, fd.events, fe.events, tm.events)
          && Executed(out, s.filePairs, s.dirPairs, fd.events, fe.events, tm.events);
      }
    }
  }

  /** On success, event `i` of fetchDirectories copies or fetches pair `i`. */
  lemma FetchDirsPairs(env: Env, h: History, dirs: seq<Pair>)
    requires FetchDirs(env, h, dirs).result.Ok?
    ensures var ev := FetchDirs(env, h, dirs).events;
      |ev| == |dirs|
      && forall i :: 0 <= i < |ev| ==> IsDirFetch(ev[i]) && ev[i].src == dirs[i].source && ev[i].dst == dirs[i].dest
  {
    var ev := FetchDirs(env, h, dirs).events;
    FetchDirsOk(env, h, dirs);
    forall i | 0 <= i < |ev|
      ensures IsDirFetch(ev[i]) && ev[i].src == dirs[i].source && ev[i].dst == dirs[i].dest
    {
      assert ev[i] == DirFetch(env, h + ev[..i], dirs[i]);
    }
  }

  /** The whole run: what the collecting stages did, then the three phases. */
  predicate RunShape(out: Outcome, s: State, s': State, pre: History, d: seq<Event>, f: seq<Event>, t: seq<Event>) {
    Phases(s'.trace, pre, d, f, t) && s.trace <= pre
    && (!Collected(out) ==> d == [] && f == [] && t == [])
    && Executed(out, s'.filePairs, s'.dirPairs, d, f, t)
  }

  /**
   * The trace of a run is what was there, then exactly what the collecting
   * stages did (manifest fetches included), then the three phases. A run that
   * stops while collecting has no phase at all, and a stage that fails is the
   * last: nothing of the later phases happens.
   */
  lemma RunRootPhases(env: Env, s: State, flags: Flags)
    ensures var r := RunRoot(env, s, flags);
      var pre := if NoFlags(flags) then s.trace else Collect(env, s, flags).1.trace;
      exists d, f, t :: RunShape(r.0, s, r.1, pre, d, f, t)
  {
    var r := RunRoot(env, s, flags);
    if NoFlags(flags) || Collect(env, s, flags).0.Some? {
      RunRootStopsEarly(env, s, flags);
      assert RunShape(r.0, s, r.1, r.1.trace, [], [], []);
    } else {
      var pre := Collect(env, s, flags).1.trace;
      RunRootCollects(env, s, flags);
      RunRootExecutes(env, s, flags);
      var d, f, t :| Phases(r.1.trace, pre, d, f, t) && Executed(r.0, r.1.filePairs, r.1.dirPairs, d, f, t);
      assert RunShape(r.0, s, r.1, pre, d, f, t);
    }
  }

  /**
   * A run that stops before executing ends as the collecting stages left it:
   * with help and nothing changed, or with the fatal outcome of the stage that
   * failed and the state that stage left, so nothing is fetched or rendered
   * after it.
   */
  lemma RunRootStopsEarly(env: Env, s: State, flags: Flags)
    requires NoFlags(flags) || Collect(env, s, flags).0.Some?
    ensures var r := RunRoot(env, s, flags);
      !Collected(r.0) && RunShape(r.0, s, r.1, r.1.trace, [], [], [])
      && r == (if NoFlags(flags) then (ShowHelp, s)
               else (Collect(env, s, flags).0.value, Collect(env, s, flags).1))
  {
    var r := RunRoot(env, s, flags);
    if !NoFlags(flags) {
      var c := Collect(env, s, flags);
      assert r == (c.0.value, c.1);
    }
    StoppedShape(r.0, s, r.1);
  }

  /** A run that stopped while collecting has no phase after what it did. */
  lemma StoppedShape(out: Outcome, s: State, s': State)
    requires !Collected(out) && s.trace <= s'.trace
    ensures RunShape(out, s, s', s'.trace, [], [], [])
  {
    assert s'.trace == s'.trace + [] + [] + [];
  }

  /** A run that executes got past the collecting stages, which only appended to the trace. */
  lemma RunRootCollects(env: Env, s: State, flags: Flags)
    requires !NoFlags(flags) && Collect(env, s, flags).0.None?
    ensures Collected(RunRoot(env, s, flags).0) && s.trace <= Collect(env, s, flags).1.trace
  {
    var c := Collect(env, s, flags);
    var r := Execute(env, c.1);
    assert RunRoot(env, s, flags) == r;
  }

  /** A run that executes ends in the phases of Execute, behind what collecting appended. */
  lemma RunRootExecutes(env: Env, s: State, flags: Flags)
    requires !NoFlags(flags) && Collect(env, s, flags).0.None?
    ensures var r := RunRoot(env, s, flags);
      exists d, f, t :: Phases(r.1.trace, Collect(env, s, flags).1.trace, d, f, t)
        && Executed(r.0, r.1.filePairs, r.1.dirPairs, d, f, t)
  {
    var c := Collect(env, s, flags);
    var r := Execute(env, c.1);
    assert RunRoot(env, s, flags) == r;
    ExecutePhases(env, c.1);
  }
}
