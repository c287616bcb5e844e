/**
 * What the stages of cmd/root.go promise, proved about the functions of module
 * Pipeline: one pair per declaration and the halves rendered after the split,
 * glob matches concatenated in pattern order, fetches in order up to the first
 * failure, in-place pairs never fetched, every destination rendered, the
 * ordering inside a manifest, and the stage order of runRootCmd.
 */
module PipelineProperties {
  import opened Wrappers
  import opened Pairs
  import opened Pipeline

  // ---------------------------------------------------------------- parseFilePairs

  /** Both halves of a pair render. */
  predicate Renderable(env: Env, p: Pair) {
    env.render(p.source).Some? && env.render(p.dest).Some?
  }

  /** The rendered pair. */
  function Rendered(env: Env, p: Pair): Pair
    requires Renderable(env, p)
  {
    Pair(env.render(p.source).value, env.render(p.dest).value)
  }

  /** The renders issued for pairs that all render: source, then dest, pair by pair. */
  function Renders(raw: seq<Pair>): (evs: seq<Event>)
    ensures |evs| == 2 * |raw|
    ensures forall i :: 0 <= i < |raw| ==> evs[2 * i] == Render(raw[i].source) && evs[2 * i + 1] == Render(raw[i].dest)
  {
    if raw == [] then [] else [Render(raw[0].source), Render(raw[0].dest)] + Renders(raw[1..])
  }

  /** The renders issued for a pair that does not: up to and including the failing half. */
  function FailedRenders(env: Env, p: Pair): seq<Event> {
    if env.render(p.source).None? then [Render(p.source)] else [Render(p.source), Render(p.dest)]
  }

  /** The position of the first pair that does not render, |raw| if they all do. */
  function FirstUnrenderable(env: Env, raw: seq<Pair>): (k: nat)
    ensures k <= |raw|
    ensures forall i :: 0 <= i < k ==> Renderable(env, raw[i])
    ensures k < |raw| ==> !Renderable(env, raw[k])
  {
    if raw == [] || !Renderable(env, raw[0]) then 0 else 1 + FirstUnrenderable(env, raw[1..])
  }

  lemma RendersCons(raw: seq<Pair>, k: nat)
    requires 0 < k <= |raw|
    ensures Renders(raw[..k]) == [Render(raw[0].source), Render(raw[0].dest)] + Renders(raw[1..][..k - 1])
  {
    assert raw[..k][1..] == raw[1..][..k - 1];
  }

  /** The render loop of parseFilePairs succeeds exactly when every pair renders. */
  lemma {:induction false} RenderPairsOk(env: Env, raw: seq<Pair>)
    ensures RenderPairs(env, raw).result.Ok? <==> FirstUnrenderable(env, raw) == |raw|
  {
    if raw != [] && Renderable(env, raw[0]) {
      RenderPairsOk(env, raw[1..]);
    }
  }

  /**
   * When it succeeds it returns one rendered pair per input, in order, having
   * rendered each source and then its dest.
   */
  lemma {:induction false} RenderPairsValues(env: Env, raw: seq<Pair>)
    requires RenderPairs(env, raw).result.Ok?
    ensures var s := RenderPairs(env, raw);
      |s.result.value| == |raw|
      && (forall i :: 0 <= i < |raw| ==> Renderable(env, raw[i]) && s.result.value[i] == Rendered(env, raw[i]))
      && s.events == Renders(raw)
  {
    if raw != [] {
      var p := raw[0];
      RenderPairsValues(env, raw[1..]);
      var rest := RenderPairs(env, raw[1..]);
      var r := RenderPairs(env, raw).result.value;
      assert r == [Rendered(env, p)] + rest.result.value;
      forall i | 0 < i < |raw|
        ensures Renderable(env, raw[i]) && r[i] == Rendered(env, raw[i])
      {
        assert raw[1..][i - 1] == raw[i];
      }
    }
  }

  /**
   * When it fails, it fails on the first half that does not render, having
   * rendered the pairs before it and nothing after it.
   */
  lemma {:induction false} RenderPairsFailure(env: Env, raw: seq<Pair>)
    requires RenderPairs(env, raw).result.Err?
    ensures var s := RenderPairs(env, raw); var k := FirstUnrenderable(env, raw);
      k < |raw|
      && s.result.error == RenderFailed(if env.render(raw[k].source).None? then raw[k].source else raw[k].dest)
      && s.events == Renders(raw[..k]) + FailedRenders(env, raw[k])
  {
    var p := raw[0];
    if Renderable(env, p) {
      RenderPairsCons(env, raw);
      RenderPairsFailure(env, raw[1..]);
      var rest := RenderPairs(env, raw[1..]);
      var k := FirstUnrenderable(env, raw);
      var k' := FirstUnrenderable(env, raw[1..]);
      assert k == k' + 1;
      RendersCons(raw, k);
      assert raw[1..][k'] == raw[k];
      AppendAssoc([Render(p.source), Render(p.dest)], Renders(raw[1..][..k']), FailedRenders(env, raw[k]));
    } else {
      assert raw[..0] == [];
    }
  }

  /** The render loop on a list whose first pair renders: that pair's renders, then the rest. */
  lemma RenderPairsCons(env: Env, raw: seq<Pair>)
    requires raw != [] && Renderable(env, raw[0])
    ensures var s := RenderPairs(env, raw); var rest := RenderPairs(env, raw[1..]);
      s.events == [Render(raw[0].source), Render(raw[0].dest)] + rest.events
      && (s.result.Err? <==> rest.result.Err?)
      && (rest.result.Err? ==> s.result == rest.result)
  {
  }

  /**
   * parseFilePairs: one pair per declaration, in order, each half the rendering
   * of the trimmed text around the commas; a declaration whose half does not
   * render makes it return no pairs at all.
   */
  lemma FilePairsOutcome(env: Env, decls: seq<string>)
    ensures var s := FilePairs(env, decls);
      (s.result.Ok? <==> forall i :: 0 <= i < |decls| ==> Renderable(env, ParseDeclaration(decls[i])))
      && (s.result.Ok? ==>
            |s.result.value| == |decls|
            && (forall i :: 0 <= i < |decls| ==> s.result.value[i] == Rendered(env, ParseDeclaration(decls[i])))
            && s.events == Renders(SplitAll(decls)))
  {
    var raw := SplitAll(decls);
    RenderPairsOk(env, raw);
    if FilePairs(env, decls).result.Ok? {
      RenderPairsValues(env, raw);
    } else {
      var k := FirstUnrenderable(env, raw);
      assert !Renderable(env, ParseDeclaration(decls[k]));
    }
  }

  /**
   * Declarations without a comma, such as glob matches, become in-place pairs:
   * source and dest are the same rendering of the trimmed text.
   */
  lemma FilePairsInPlace(env: Env, decls: seq<string>)
    requires forall i :: 0 <= i < |decls| ==> ',' !in decls[i]
    ensures var s := FilePairs(env, decls);
      s.result.Ok? ==> |s.result.value| == |decls| && forall i :: 0 <= i < |decls| ==>
        s.result.value[i].InPlace() && env.render(TrimSpace(decls[i])) == Some(s.result.value[i].source)
  {
    FilePairsOutcome(env, decls);
    forall i | 0 <= i < |decls|
      ensures ParseDeclaration(decls[i]) == Pair(TrimSpace(decls[i]), TrimSpace(decls[i]))
    {
      NoCommaInPlace(decls[i]);
    }
  }

  // ---------------------------------------------------------------- parseGlobs

  /** One glob event per pattern, in pattern order. */
  function GlobEvents(globs: seq<string>): (evs: seq<Event>)
    ensures |evs| == |globs|
    ensures forall i :: 0 <= i < |globs| ==> evs[i] == Glob(globs[i])
  {
    seq(|globs|, i requires 0 <= i < |globs| => Glob(globs[i]))
  }

  /** The matches of pattern `i`, expanded after the patterns before it. */
  function MatchesAt(env: Env, h: History, globs: seq<string>, i: nat): seq<string>
    requires i < |globs|
  {
    match env.glob(h + GlobEvents(globs[..i]), globs[i])
    case Some(ms) => ms
    case None => []
  }

  /** The concatenation of a list of lists. */
  function Flatten(xss: seq<seq<string>>): (r: seq<string>)
  {
    if xss == [] then [] else xss[0] + Flatten(xss[1..])
  }

  /** Flattening the first list and then the rest. */
  lemma FlattenCons(xs: seq<string>, xss: seq<seq<string>>)
    ensures Flatten([xs] + xss) == xs + Flatten(xss)
  {
    assert ([xs] + xss)[1..] == xss;
  }

  /** The history after the first pattern, shifted by one position. */
  lemma GlobEventsShift(h: History, globs: seq<string>, i: nat)
    requires i < |globs|
    ensures h + [Glob(globs[0])] + GlobEvents(globs[1..][..i]) == h + GlobEvents(globs[..i + 1])
  {
    assert [Glob(globs[0])] + GlobEvents(globs[1..][..i]) == GlobEvents(globs[..i + 1]);
    AppendAssoc(h, [Glob(globs[0])], GlobEvents(globs[1..][..i]));
  }

  /** parseGlobs' loop, when every pattern is well formed: one glob per pattern, in pattern order. */
  lemma {:induction false} ExpandGlobsOkEvents(env: Env, h: History, globs: seq<string>)
    requires ExpandGlobs(env, h, globs).result.Ok?
    ensures ExpandGlobs(env, h, globs).events == GlobEvents(globs)
    ensures forall i :: 0 <= i < |globs| ==> env.glob(h + GlobEvents(globs[..i]), globs[i]).Some?
    decreases |globs|
  {
    if globs != [] {
      var h' := h + [Glob(globs[0])];
      var tail := globs[1..];
      ExpandGlobsOkEvents(env, h', tail);
      assert globs[..0] == [] && h + [] == h;
      forall i | 0 < i < |globs|
        ensures env.glob(h + GlobEvents(globs[..i]), globs[i]).Some?
      {
        GlobEventsShift(h, globs, i - 1);
        assert tail[i - 1] == globs[i];
      }
      assert [Glob(globs[0])] + GlobEvents(tail) == GlobEvents(globs);
    }
  }

  /** And the matches of all patterns, concatenated in pattern order. */
  lemma {:induction false} ExpandGlobsOkMatches(env: Env, h: History, globs: seq<string>)
    requires ExpandGlobs(env, h, globs).result.Ok?
    ensures ExpandGlobs(env, h, globs).result.value ==
      Flatten(seq(|globs|, i requires 0 <= i < |globs| => MatchesAt(env, h, globs, i)))
    decreases |globs|
  {
    if globs != [] {
      var h' := h + [Glob(globs[0])];
      var tail := globs[1..];
      ExpandGlobsOkMatches(env, h', tail);
      assert globs[..0] == [] && h + [] == h;
      var ms := env.glob(h, globs[0]).value;
      var all := seq(|globs|, i requires 0 <= i < |globs| => MatchesAt(env, h, globs, i));
      var rest := seq(|tail|, i requires 0 <= i < |tail| => MatchesAt(env, h', tail, i));
      forall i | 0 <= i < |tail|
        ensures rest[i] == all[i + 1]
      {
        GlobEventsShift(h, globs, i);
      }
      assert all == [ms] + rest;
      FlattenCons(ms, rest);
    }
  }

  /**
   * parseGlobs' loop, when some pattern is malformed: it stops at the first one,
   * having expanded the patterns before it and none after it.
   */
  lemma {:induction false} ExpandGlobsMalformed(env: Env, h: History, globs: seq<string>)
    requires ExpandGlobs(env, h, globs).result.Err?
    ensures var s := ExpandGlobs(env, h, globs); var k := |s.events| - 1;
      0 <= k < |globs|
      && s.events == GlobEvents(globs[..k + 1])
      && s.result.error == GlobFailed(globs[k])
      && env.glob(h + GlobEvents(globs[..k]), globs[k]).None?
      && forall i :: 0 <= i < k ==> env.glob(h + GlobEvents(globs[..i]), globs[i]).Some?
    decreases |globs|
  {
    assert globs[..0] == [] && h + [] == h;
    if env.glob(h, globs[0]).Some? {
      var h' := h + [Glob(globs[0])];
      var tail := globs[1..];
      ExpandGlobsMalformed(env, h', tail);
      var k' := |ExpandGlobs(env, h', tail).events| - 1;
      forall i | 0 <= i <= k'
        ensures h' + GlobEvents(tail[..i]) == h + GlobEvents(globs[..i + 1])
      {
        GlobEventsShift(h, globs, i);
      }
      assert [Glob(globs[0])] + GlobEvents(tail[..k' + 1]) == GlobEvents(globs[..k' + 2]);
    }
  }

  /**
   * parseGlobs: every pattern is expanded before any match is rendered, and the
   * pairs are those of the concatenated matches.
   */
  lemma GlobPairsOrder(env: Env, h: History, globs: seq<string>)
    requires GlobPairs(env, h, globs).result.Ok?
    ensures var ms := Flatten(seq(|globs|, i requires 0 <= i < |globs| => MatchesAt(env, h, globs, i)));
      GlobPairs(env, h, globs) == After(GlobEvents(globs), FilePairs(env, ms))
      && GlobPairs(env, h, globs).events == GlobEvents(globs) + Renders(SplitAll(ms))
  {
    ExpandGlobsOkEvents(env, h, globs);
    ExpandGlobsOkMatches(env, h, globs);
    var ms := Flatten(seq(|globs|, i requires 0 <= i < |globs| => MatchesAt(env, h, globs, i)));
    FilePairsOutcome(env, ms);
  }

  /** parseGlobs: every match without a comma becomes an in-place pair of its rendering. */
  lemma GlobPairsInPlace(env: Env, h: History, globs: seq<string>)
    requires GlobPairs(env, h, globs).result.Ok?
    requires ExpandGlobs(env, h, globs).result.Ok?
    requires var ms := ExpandGlobs(env, h, globs).result.value; forall i :: 0 <= i < |ms| ==> ',' !in ms[i]
    ensures var ms := ExpandGlobs(env, h, globs).result.value; var ps := GlobPairs(env, h, globs).result.value;
      |ps| == |ms| && forall i :: 0 <= i < |ms| ==> ps[i].InPlace() && env.render(TrimSpace(ms[i])) == Some(ps[i].source)
  {
    FilePairsInPlace(env, ExpandGlobs(env, h, globs).result.value);
  }

  // ---------------------------------------------------------------- fetchDirectories

  /** A copy of a local directory or a fetch in dir mode. */
  predicate IsDirFetch(e: Event) {
    e.CopyDir? || (e.Get? && e.mode == ModeDir)
  }

  /** The history before event `i + 1` of `[e] + rest`, seen from after `e`. */
  lemma PrefixShift(h: History, e: Event, rest: seq<Event>, i: nat)
    requires i <= |rest|
    ensures h + ([e] + rest)[..i + 1] == (h + [e]) + rest[..i]
  {
    assert ([e] + rest)[..i + 1] == [e] + rest[..i];
    AppendAssoc(h, [e], rest[..i]);
  }

  /** fetchDirectories only copies directories and fetches in dir mode. */
  lemma {:induction false} FetchDirsOnlyDirs(env: Env, h: History, dirs: seq<Pair>)
    ensures forall e :: e in FetchDirs(env, h, dirs).events ==> IsDirFetch(e)
    decreases |dirs|
  {
    if dirs != [] && DirFetched(env, h, dirs[0]) {
      FetchDirsOnlyDirs(env, h + [DirFetch(env, h, dirs[0])], dirs[1..]);
    }
  }

  /**
   * fetchDirectories, when it succeeds: pair `i` is the i-th thing done, a copy if
   * its source is then a local directory and a dir-mode fetch otherwise.
   */
  lemma {:induction false} FetchDirsOk(env: Env, h: History, dirs: seq<Pair>)
    requires FetchDirs(env, h, dirs).result.Ok?
    ensures var ev := FetchDirs(env, h, dirs).events;
      |ev| == |dirs|
      && forall i :: 0 <= i < |dirs| ==>
           ev[i] == DirFetch(env, h + ev[..i], dirs[i]) && DirFetched(env, h + ev[..i], dirs[i])
    decreases |dirs|
  {
    if dirs != [] {
      var e := DirFetch(env, h, dirs[0]);
      FetchDirsOk(env, h + [e], dirs[1..]);
      var rest := FetchDirs(env, h + [e], dirs[1..]).events;
      var ev := FetchDirs(env, h, dirs).events;
      assert ev == [e] + rest;
      assert ev[..0] == [] && h + [] == h;
      forall i | 0 < i < |dirs|
        ensures ev[i] == DirFetch(env, h + ev[..i], dirs[i]) && DirFetched(env, h + ev[..i], dirs[i])
      {
        PrefixShift(h, e, rest, i - 1);
        assert dirs[1..][i - 1] == dirs[i];
      }
    }
  }

  /**
   * fetchDirectories, when it fails: the pairs before the failing one are moved
   * as a successful run over them would move them, then the failing copy or fetch
   * is attempted, and nothing after it.
   */
  lemma {:induction false} FetchDirsFailure(env: Env, h: History, dirs: seq<Pair>)
    requires FetchDirs(env, h, dirs).result.Err?
    ensures var s := FetchDirs(env, h, dirs); var ev := s.events; var k := |ev| - 1;
      0 <= k < |dirs|
      && FetchDirs(env, h, dirs[..k]) == Step(Ok(()), ev[..k])
      && ev[k] == DirFetch(env, h + ev[..k], dirs[k])
      && !DirFetched(env, h + ev[..k], dirs[k])
      && s.result.error == (if ev[k].CopyDir? then CopyFailed(dirs[k].source, dirs[k].dest)
                            else GetFailed(dirs[k].source, dirs[k].dest))
    decreases |dirs|
  {
    var e := DirFetch(env, h, dirs[0]);
    var ev := FetchDirs(env, h, dirs).events;
    if DirFetched(env, h, dirs[0]) {
      FetchDirsFailure(env, h + [e], dirs[1..]);
      var rest := FetchDirs(env, h + [e], dirs[1..]).events;
      var k := |rest| - 1;
      assert ev == [e] + rest;
      PrefixShift(h, e, rest, k);
      assert dirs[..k + 1][0] == dirs[0] && dirs[..k + 1][1..] == dirs[1..][..k];
      assert ev[..k + 1] == [e] + rest[..k];
      assert dirs[1..][k] == dirs[k + 1];
    } else {
      assert ev[..0] == [] && h + [] == h;
    }
  }

  // ---------------------------------------------------------------- fetchFiles

  /** A file-mode fetch of something that is not in place. */
  predicate IsFileFetch(e: Event) {
    e.Get? && e.mode == ModeFile && e.src != e.dst
  }

  /** The fetches fetchFiles issues when none fails: one per pair that is not in place, in order. */
  function FileGets(files: seq<Pair>): (evs: seq<Event>)
    ensures forall e :: e in evs ==> IsFileFetch(e)
  {
    if files == [] then []
    else (if files[0].InPlace() then [] else [Get(ModeFile, files[0].source, files[0].dest)]) + FileGets(files[1..])
  }

  /** Every fetch is of one of the pairs. */
  lemma {:induction false} FileGetsFrom(files: seq<Pair>)
    ensures forall e :: e in FileGets(files) ==> Pair(e.src, e.dst) in files
  {
    if files != [] {
      FileGetsFrom(files[1..]);
    }
  }

  /** The fetches for two lists one after the other. */
  lemma {:induction false} FileGetsAppend(a: seq<Pair>, b: seq<Pair>)
    ensures FileGets(a + b) == FileGets(a) + FileGets(b)
  {
    if a != [] {
      FileGetsAppend(a[1..], b);
      assert (a + b)[0] == a[0] && (a + b)[1..] == a[1..] + b;
      var first := if a[0].InPlace() then [] else [Get(ModeFile, a[0].source, a[0].dest)];
      assert FileGets(a + b) == first + FileGets(a[1..] + b);
      assert FileGets(a) == first + FileGets(a[1..]);
      AppendAssoc(first, FileGets(a[1..]), FileGets(b));
    } else {
      assert [] + b == b;
    }
  }

  /** The fetches for a list are those for its front followed by those for its last pair. */
  lemma FileGetsSnoc(files: seq<Pair>, k: nat)
    requires k < |files|
    ensures FileGets(files[..k + 1]) ==
      FileGets(files[..k]) + (if files[k].InPlace() then [] else [Get(ModeFile, files[k].source, files[k].dest)])
  {
    assert files[..k + 1] == files[..k] + [files[k]];
    FileGetsAppend(files[..k], [files[k]]);
  }

  /** fetchFiles, when it succeeds: exactly one file-mode fetch per pair that is not in place, in order. */
  lemma {:induction false} FetchFilesOk(env: Env, h: History, files: seq<Pair>)
    requires Pipeline.FetchFiles(env, h, files).result.Ok?
    ensures Pipeline.FetchFiles(env, h, files).events == FileGets(files)
    decreases |files|
  {
    if files != [] {
      var p := files[0];
      if p.InPlace() {
        FetchFilesOk(env, h, files[1..]);
      } else {
        FetchFilesOk(env, h + [Get(ModeFile, p.source, p.dest)], files[1..]);
      }
    }
  }

  /**
   * fetchFiles stopped at pair `k`: the pairs before it were fetched as a
   * successful run fetches them, then the fetch of pair `k`, not in place, failed.
   */
  predicate FailedAtFile(env: Env, h: History, files: seq<Pair>, k: nat) {
    var s := Pipeline.FetchFiles(env, h, files);
    k < |files| && !files[k].InPlace()
    && s.events == FileGets(files[..k]) + [Get(ModeFile, files[k].source, files[k].dest)]
    && !env.get(h + FileGets(files[..k]), ModeFile, files[k].source, files[k].dest)
    && s.result == Err(GetFailed(files[k].source, files[k].dest))
  }

  /** fetchFiles, when it fails, fails at one pair. */
  lemma {:induction false} FetchFilesFailure(env: Env, h: History, files: seq<Pair>)
    requires Pipeline.FetchFiles(env, h, files).result.Err?
    ensures exists k: nat :: FailedAtFile(env, h, files, k)
    decreases |files|
  {
    var p := files[0];
    if p.InPlace() || env.get(h, ModeFile, p.source, p.dest) {
      var pre := if p.InPlace() then [] else [Get(ModeFile, p.source, p.dest)];
      var tail := files[1..];
      var s := Pipeline.FetchFiles(env, h, files);
      var t := Pipeline.FetchFiles(env, h + pre, tail);
      if p.InPlace() {
        assert h + pre == h;
      }
      assert s == After(pre, t);
      FetchFilesFailure(env, h + pre, tail);
      var k: nat :| FailedAtFile(env, h + pre, tail, k);
      var g := FileGets(tail[..k]);
      var last := [Get(ModeFile, tail[k].source, tail[k].dest)];
      assert files[..k + 1][1..] == tail[..k];
      assert FileGets(files[..k + 1]) == pre + g;
      assert tail[k] == files[k + 1];
      AppendAssoc(h, pre, g);
      AppendAssoc(pre, g, last);
      assert FailedAtFile(env, h, files, k + 1);
    } else {
      assert files[..0] == [] && h + [] == h;
      assert FailedAtFile(env, h, files, 0);
    }
  }

  /** fetchFiles never fetches an in-place pair, and fetches nothing but the pairs it was given. */
  lemma FetchFilesNeverInPlace(env: Env, h: History, files: seq<Pair>)
    ensures forall e :: e in Pipeline.FetchFiles(env, h, files).events ==> IsFileFetch(e) && Pair(e.src, e.dst) in files
  {
    var s := Pipeline.FetchFiles(env, h, files);
    if s.result.Ok? {
      FetchFilesOk(env, h, files);
      FileGetsFrom(files);
    } else {
      FetchFilesFailure(env, h, files);
      var k: nat :| FailedAtFile(env, h, files, k);
      forall e | e in s.events
        ensures IsFileFetch(e) && Pair(e.src, e.dst) in files
      {
        if e in FileGets(files[..k]) {
          FileGetsFrom(files[..k]);
          assert Pair(e.src, e.dst) in files[..k];
        }
      }
    }
  }

  // ---------------------------------------------------------------- parseFileDestinationTemplates

  /** The paths read, in order. */
  function ReadPaths(evs: seq<Event>): seq<string> {
    if evs == [] then [] else (if evs[0].ReadFile? then [evs[0].path] else []) + ReadPaths(evs[1..])
  }

  /** The paths written, in order. */
  function WritePaths(evs: seq<Event>): seq<string> {
    if evs == [] then [] else (if evs[0].WriteFile? then [evs[0].path] else []) + WritePaths(evs[1..])
  }

  lemma {:induction false} ReadPathsAppend(a: seq<Event>, b: seq<Event>)
    ensures ReadPaths(a + b) == ReadPaths(a) + ReadPaths(b)
  {
    if a != [] {
      ReadPathsAppend(a[1..], b);
      assert (a + b)[0] == a[0] && (a + b)[1..] == a[1..] + b;
      var first := if a[0].ReadFile? then [a[0].path] else [];
      assert ReadPaths(a + b) == first + ReadPaths(a[1..] + b);
      assert ReadPaths(a) == first + ReadPaths(a[1..]);
      assert first + (ReadPaths(a[1..]) + ReadPaths(b)) == (first + ReadPaths(a[1..])) + ReadPaths(b);
    } else {
      assert [] + b == b;
    }
  }

  lemma {:induction false} WritePathsAppend(a: seq<Event>, b: seq<Event>)
    ensures WritePaths(a + b) == WritePaths(a) + WritePaths(b)
  {
    if a != [] {
      WritePathsAppend(a[1..], b);
      assert (a + b)[0] == a[0] && (a + b)[1..] == a[1..] + b;
      var first := if a[0].WriteFile? then [a[0].path] else [];
      assert WritePaths(a + b) == first + WritePaths(a[1..] + b);
      assert WritePaths(a) == first + WritePaths(a[1..]);
      assert first + (WritePaths(a[1..]) + WritePaths(b)) == (first + WritePaths(a[1..])) + WritePaths(b);
    } else {
      assert [] + b == b;
    }
  }

  /** The destinations of the pairs, in order. */
  function Dests(files: seq<Pair>): (ds: seq<string>)
    ensures |ds| == |files|
    ensures forall i :: 0 <= i < |files| ==> ds[i] == files[i].dest
  {
    seq(|files|, i requires 0 <= i < |files| => files[i].dest)
  }

  /** Whether the file at `path` can be read and its contents rendered. */
  predicate FileRenders(env: Env, h: History, path: string) {
    env.readFile(h, path).Some? && env.render(env.readFile(h, path).value).Some?
  }

  /**
   * execTemplateFile reads the file once, and writes it back, with the rendered
   * contents, exactly when reading and rendering succeeded.
   */
  lemma ExecFileEvents(env: Env, h: History, path: string)
    ensures var x := ExecFile(env, h, path);
      ReadPaths(x.events) == [path]
      && WritePaths(x.events) == (if FileRenders(env, h, path) then [path] else [])
      && (x.result.Ok? ==> FileRenders(env, h, path))
      && (forall e :: e in x.events && e.WriteFile? ==>
            FileRenders(env, h, path) && e == WriteFile(path, env.render(env.readFile(h, path).value).value))
  {
    var x := ExecFile(env, h, path);
    match env.readFile(h, path)
    case None =>
      PathsOne(ReadFile(path));
    case Some(body) =>
      PathsOne(ReadFile(path));
      PathsOne(Render(body));
      ReadPathsAppend([ReadFile(path)], [Render(body)]);
      WritePathsAppend([ReadFile(path)], [Render(body)]);
      assert [ReadFile(path)] + [Render(body)] == [ReadFile(path), Render(body)];
      match env.render(body)
      case None =>
      case Some(out) =>
        PathsOne(WriteFile(path, out));
        ReadPathsAppend([ReadFile(path), Render(body)], [WriteFile(path, out)]);
        WritePathsAppend([ReadFile(path), Render(body)], [WriteFile(path, out)]);
        assert [ReadFile(path), Render(body)] + [WriteFile(path, out)] == x.events;
  }

  /** The paths of a single event. */
  lemma PathsOne(e: Event)
    ensures ReadPaths([e]) == (if e.ReadFile? then [e.path] else [])
    ensures WritePaths([e]) == (if e.WriteFile? then [e.path] else [])
  {
    assert [e][1..] == [];
  }

  /**
   * One round of parseFileDestinationTemplates' loop: the pair's destination is
   * rendered in place; then, if source and destination differ as absolute
   * paths, the destination gets the source's permission bits when the source
   * exists, and stat failing for another reason panics.
   */
  lemma TemplateFileChmod(env: Env, h: History, p: Pair)
    ensures var t := TemplateFile(env, h, p); var x := ExecFile(env, h, p.dest);
      var sp := AbsPath(env, p.source); var dp := AbsPath(env, p.dest);
      var copies := x.result.Ok? && sp != dp;
      (t.result.Ok? <==> x.result.Ok? && !(sp != dp && env.stat(h + x.events, sp) == StatFailed))
      && (t.result == Err(StatPanicked(sp)) <==> copies && env.stat(h + x.events, sp) == StatFailed)
      && ((exists e :: e in t.events && e.Chmod?) <==> copies && env.stat(h + x.events, sp).Found?)
      && (forall e :: e in t.events && e.Chmod? ==> e.path == dp && env.stat(h + x.events, sp) == Found(e.perm))
  {
    var x := ExecFile(env, h, p.dest);
    assert forall e :: e in x.events ==> !e.Chmod?;
    if x.result.Ok? {
      var c := CopyPerm(env, h + x.events, p);
      assert TemplateFile(env, h, p).events == x.events + c.events;
      if c.events != [] {
        assert c.events[0] in TemplateFile(env, h, p).events;
      }
    } else {
      assert ReadPaths([]) == [];
    }
  }

  /** The other events of a round of the loop neither read nor write files. */
  lemma TemplateFileEvents(env: Env, h: History, p: Pair)
    ensures var t := TemplateFile(env, h, p); var x := ExecFile(env, h, p.dest);
      ReadPaths(t.events) == ReadPaths(x.events) && WritePaths(t.events) == WritePaths(x.events)
  {
    var x := ExecFile(env, h, p.dest);
    if x.result.Ok? {
      var c := CopyPerm(env, h + x.events, p);
      ReadPathsAppend(x.events, c.events);
      WritePathsAppend(x.events, c.events);
      if c.events != [] {
        assert c.events[1..] == [];
      }
    }
  }

  /** What parseFileDestinationTemplates does to the outside world: read, render, write, chmod. */
  predicate IsTemplateEvent(e: Event) {
    e.ReadFile? || e.Render? || e.WriteFile? || e.Chmod?
  }

  /** parseFileDestinationTemplates does nothing else. */
  lemma {:induction false} TemplatesOnlyTemplateEvents(env: Env, h: History, files: seq<Pair>)
    ensures forall e :: e in Templates(env, h, files).events ==> IsTemplateEvent(e)
    decreases |files|
  {
    if files != [] {
      var init := files[..|files| - 1];
      TemplatesOnlyTemplateEvents(env, h, init);
      var prev := Templates(env, h, init);
      if prev.result.Ok? {
        var t := TemplateFile(env, h + prev.events, files[|files| - 1]);
        assert forall e :: e in t.events ==> IsTemplateEvent(e);
      }
    }
  }

  /**
   * parseFileDestinationTemplates renders the destination of every pair, in
   * order, in-place pairs included; it stops at the first pair that fails, so
   * what it read is then a prefix of the destinations.
   */
  lemma {:induction false} TemplatesPaths(env: Env, h: History, files: seq<Pair>)
    ensures var s := Templates(env, h, files);
      ReadPaths(s.events) <= Dests(files)
      && (s.result.Ok? ==> ReadPaths(s.events) == Dests(files) && WritePaths(s.events) == Dests(files))
    decreases |files|
  {
    if files != [] {
      var n := |files| - 1;
      var init := files[..n];
      TemplatesPaths(env, h, init);
      var prev := Templates(env, h, init);
      assert Dests(files) == Dests(init) + [files[n].dest];
      if prev.result.Ok? {
        var t := TemplateFile(env, h + prev.events, files[n]);
        ExecFileEvents(env, h + prev.events, files[n].dest);
        TemplateFileEvents(env, h + prev.events, files[n]);
        ReadPathsAppend(prev.events, t.events);
        WritePathsAppend(prev.events, t.events);
      }
    }
  }

  // ---------------------------------------------------------------- parseManifests

  /** parseFilePairs does nothing but render. */
  lemma {:induction false} RenderPairsOnlyRenders(env: Env, raw: seq<Pair>)
    ensures forall e :: e in RenderPairs(env, raw).events ==> e.Render?
  {
    if raw != [] && env.render(raw[0].source).Some? && env.render(raw[0].dest).Some? {
      RenderPairsOnlyRenders(env, raw[1..]);
    }
  }

  /** parseGlobs' loop does nothing but expand patterns. */
  lemma {:induction false} ExpandGlobsOnlyGlobs(env: Env, h: History, globs: seq<string>)
    ensures forall e :: e in ExpandGlobs(env, h, globs).events ==> e.Glob?
    decreases |globs|
  {
    if globs != [] && env.glob(h, globs[0]).Some? {
      ExpandGlobsOnlyGlobs(env, h + [Glob(globs[0])], globs[1..]);
    }
  }

  /** parseGlobs does nothing but expand patterns and render. */
  lemma GlobPairsOnlyGlobsAndRenders(env: Env, h: History, globs: seq<string>)
    ensures forall e :: e in GlobPairs(env, h, globs).events ==> e.Glob? || e.Render?
  {
    ExpandGlobsOnlyGlobs(env, h, globs);
    var g := ExpandGlobs(env, h, globs);
    if g.result.Ok? {
      RenderPairsOnlyRenders(env, SplitAll(g.result.value));
    }
  }

  /** No pattern is expanded. */
  predicate NoGlob(evs: seq<Event>) {
    forall e :: e in evs ==> !e.Glob?
  }

  /** No directory is copied or fetched. */
  predicate NoDirFetch(evs: seq<Event>) {
    forall e :: e in evs ==> !IsDirFetch(e)
  }

  /** Every directory fetch comes before every glob. */
  predicate DirsBeforeGlobs(ev: seq<Event>) {
    forall i, j :: 0 <= i < |ev| && 0 <= j < |ev| && IsDirFetch(ev[i]) && ev[j].Glob? ==> i < j
  }

  /** Loading a manifest neither expands a glob nor fetches a directory. */
  lemma LoadManifestEvents(env: Env, h: History, ref: string)
    ensures var ev := LoadManifest(env, h, ref).events;
      NoGlob(ev) && NoDirFetch(ev)
      && |ev| >= 1 && ev[0] == Render(ref)
      && (|ev| > 1 ==> env.render(ref).Some? && ev[1].TempFile? && |ev| > 2
                       && ev[2] == Get(ModeFile, env.render(ref).value, ev[1].path))
      && (LoadManifest(env, h, ref).result.Ok? ==> |ev| == 4)
  {
  }

  /**
   * A manifest's reference is rendered before anything else, and what is
   * fetched, in file mode, is the rendered reference.
   */
  lemma OneManifestRendersFirst(env: Env, h: History, ref: string)
    ensures var ev := OneManifest(env, h, ref).events;
      |ev| >= 1 && ev[0] == Render(ref)
      && (|ev| > 1 ==> env.render(ref).Some? && ev[1].TempFile? && |ev| > 2
                       && ev[2] == Get(ModeFile, env.render(ref).value, ev[1].path))
  {
    var l := LoadManifest(env, h, ref);
    LoadManifestEvents(env, h, ref);
    if l.result.Ok? {
      var r := ResolveManifest(env, h + l.events, l.result.value);
      var ev := OneManifest(env, h, ref).events;
      assert ev == l.events + r.events;
      assert ev[0] == l.events[0] && ev[1] == l.events[1] && ev[2] == l.events[2];
    }
  }

  /** Events with no directory fetch are trivially ordered. */
  lemma NoDirFetchOrdered(ev: seq<Event>)
    requires NoDirFetch(ev)
    ensures DirsBeforeGlobs(ev)
  {
  }

  /** So are events with no glob. */
  lemma NoGlobOrdered(ev: seq<Event>)
    requires NoGlob(ev)
    ensures DirsBeforeGlobs(ev)
  {
  }

  /** Ordered events stay ordered behind events with no glob. */
  lemma OrderedAfterNoGlob(a: seq<Event>, b: seq<Event>)
    requires NoGlob(a) && DirsBeforeGlobs(b)
    ensures DirsBeforeGlobs(a + b)
  {
    var ev := a + b;
    forall i, j | 0 <= i < |ev| && 0 <= j < |ev| && IsDirFetch(ev[i]) && ev[j].Glob?
      ensures i < j
    {
      if i >= |a| && j >= |a| {
        assert ev[i] == b[i - |a|] && ev[j] == b[j - |a|];
      }
    }
  }

  /** And in front of events with no directory fetch. */
  lemma OrderedBeforeNoDirFetch(a: seq<Event>, b: seq<Event>)
    requires DirsBeforeGlobs(a) && NoDirFetch(b)
    ensures DirsBeforeGlobs(a + b)
  {
    var ev := a + b;
    forall i, j | 0 <= i < |ev| && 0 <= j < |ev| && IsDirFetch(ev[i]) && ev[j].Glob?
      ensures i < j
    {
      if i < |a| && j < |a| {
        assert ev[i] == a[i] && ev[j] == a[j];
      }
    }
  }

  /** No glob in either part, none in both. */
  lemma NoGlobAppend(a: seq<Event>, b: seq<Event>)
    requires NoGlob(a) && NoGlob(b)
    ensures NoGlob(a + b)
  {
  }

  /** Resolving a manifest fetches its dirs before it expands its globs. */
  lemma ResolveManifestDirsBeforeGlobs(env: Env, h: History, m: Manifest)
    ensures DirsBeforeGlobs(ResolveManifest(env, h, m).events)
  {
    var d := FilePairs(env, m.dirs);
    RenderPairsOnlyRenders(env, SplitAll(m.dirs));
    if d.result.Err? {
      NoDirFetchOrdered(d.events);
    } else {
      var f := FetchDirs(env, h + d.events, d.result.value);
      FetchDirsOnlyDirs(env, h + d.events, d.result.value);
      NoGlobAppend(d.events, f.events);
      NoGlobOrdered(d.events + f.events);
      if f.result.Ok? {
        var g := GlobPairs(env, h + d.events + f.events, m.globs);
        GlobPairsOnlyGlobsAndRenders(env, h + d.events + f.events, m.globs);
        OrderedBeforeNoDirFetch(d.events + f.events, g.events);
        if g.result.Ok? {
          var fp := FilePairs(env, m.files);
          RenderPairsOnlyRenders(env, SplitAll(m.files));
          OrderedBeforeNoDirFetch(d.events + f.events + g.events, fp.events);
        }
      }
    }
  }

  /** Within a manifest, every directory fetch happens before any of its globs is expanded. */
  lemma OneManifestDirsBeforeGlobs(env: Env, h: History, ref: string)
    ensures DirsBeforeGlobs(OneManifest(env, h, ref).events)
  {
    var l := LoadManifest(env, h, ref);
    LoadManifestEvents(env, h, ref);
    if l.result.Err? {
      NoGlobOrdered(l.events);
    } else {
      ResolveManifestDirsBeforeGlobs(env, h + l.events, l.result.value);
      OrderedAfterNoGlob(l.events, ResolveManifest(env, h + l.events, l.result.value).events);
    }
  }

  /**
   * A manifest yields its glob pairs followed by its file pairs, one per file
   * declaration; the pairs of its dirs are fetched and not returned.
   */
  lemma OneManifestPairs(env: Env, h: History, ref: string)
    requires OneManifest(env, h, ref).result.Ok?
    ensures var l := LoadManifest(env, h, ref);
      l.result.Ok? &&
      var m := l.result.value;
      var d := FilePairs(env, m.dirs);
      d.result.Ok? &&
      var f := FetchDirs(env, h + l.events + d.events, d.result.value);
      f.result.Ok? &&
      var hg := h + l.events + d.events + f.events;
      var g := ExpandGlobs(env, hg, m.globs);
      g.result.Ok? && GlobPairs(env, hg, m.globs).result.Ok? && FilePairs(env, m.files).result.Ok?
      && OneManifest(env, h, ref).result.value
         == GlobPairs(env, hg, m.globs).result.value + FilePairs(env, m.files).result.value
      && |OneManifest(env, h, ref).result.value| == |g.result.value| + |m.files|
  {
    var l := LoadManifest(env, h, ref);
    var m := l.result.value;
    var d := FilePairs(env, m.dirs);
    var f := FetchDirs(env, h + l.events + d.events, d.result.value);
    AppendAssoc(h, l.events, d.events);
    var hg := h + l.events + d.events + f.events;
    FilePairsOutcome(env, m.files);
    FilePairsOutcome(env, ExpandGlobs(env, hg, m.globs).result.value);
  }

  /** parseManifests over two lists is the first list, then the second after it. */
  lemma {:induction false} ManifestsAppend(env: Env, h: History, a: seq<string>, b: seq<string>)
    ensures var s := Manifests(env, h, a);
      Manifests(env, h, a + b) ==
        if s.result.Err? then s else Then(s.result.value, s.events, Manifests(env, h + s.events, b))
    decreases |a|
  {
    if a == [] {
      assert [] + b == b;
      ThenNil(Manifests(env, h, b));
      assert h + [] == h;
    } else {
      assert (a + b)[0] == a[0] && (a + b)[1..] == a[1..] + b;
      var one := OneManifest(env, h, a[0]);
      if one.result.Ok? {
        var h1 := h + one.events;
        ManifestsAppend(env, h1, a[1..], b);
        var s1 := Manifests(env, h1, a[1..]);
        if s1.result.Ok? {
          ThenThen(one.result.value, one.events, s1.result.value, s1.events, Manifests(env, h1 + s1.events, b));
          AppendAssoc(h, one.events, s1.events);
        }
      }
    }
  }
}
