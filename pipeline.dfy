/**
 * The resolution pipeline of cmd/root.go as functions over an event history.
 *
 * Everything the command does to the outside world (template rendering, glob
 * expansion, go-getter fetches, directory copies, temporary files, reading and
 * writing files, stat and chmod) is an oracle in `Env`. Each oracle that looks
 * at the file system is handed the history of events so far, so that what it
 * answers may depend on what earlier steps did (a glob may see a directory that
 * a fetch just created). Each function here returns the result of one stage and
 * the events it appends; class Cmd.Cli runs the same stages imperatively and is
 * proved to append exactly these events.
 */
module Pipeline {
  import opened Wrappers
  import opened Pairs

  /** The three lists of a manifest file, exactly as yaml.UnmarshalStrict fills them. */
  datatype Manifest = Manifest(dirs: seq<string>, globs: seq<string>, files: seq<string>)

  /** go-getter's Client.Mode; a client built without a mode starts out invalid. */
  datatype ClientMode = ModeInvalid | ModeFile | ModeDir

  /** What os.Stat reports: the permission bits, "does not exist", or another error. */
  datatype StatResult = Found(perm: nat) | NotExist | StatFailed

  /** One interaction with the outside world, in the order the command performs them. */
  datatype Event =
    | Render(body: string)                          // execTemplateString
    | Glob(pattern: string)                         // doublestar.Glob
    | TempFile(path: string)                        // ioutil.TempFile
    | Get(mode: ClientMode, src: string, dst: string) // go-getter Client.Get
    | CopyDir(src: string, dst: string)             // copy.Copy of a local directory
    | ReadFile(path: string)                        // ioutil.ReadFile
    | WriteFile(path: string, body: string)         // ioutil.WriteFile
    | Chmod(path: string, perm: nat)                // os.Chmod (its error is ignored)

  type History = seq<Event>

  /** The collaborators of cmd/root.go; `None`/`false` is the collaborator's error. */
  datatype Env = Env(
    render: string -> Option<string>,
    glob: (History, string) -> Option<seq<string>>,
    isLocalDir: (History, string) -> bool,
    copyDir: (History, string, string) -> bool,
    get: (History, ClientMode, string, string) -> bool,
    tempFile: History -> Option<string>,
    readFile: (History, string) -> Option<string>,
    writeFile: (History, string, string) -> bool,
    unmarshalManifest: string -> Option<Manifest>,
    stat: (History, string) -> StatResult,
    joinPwd: string -> string)

  /** The error a stage returns, naming what failed. */
  datatype Error =
    | RenderFailed(body: string)
    | GlobFailed(pattern: string)
    | GetFailed(src: string, dst: string)
    | CopyFailed(src: string, dst: string)
    | TempFileFailed
    | ReadFailed(path: string)
    | ManifestInvalid(path: string)
    | WriteFailed(path: string)
    | StatPanicked(path: string)

  /** What a stage returns and the events it appends to the history. */
  datatype Step<T> = Step(result: Result<T, Error>, events: seq<Event>)

  /** `s` run after a part that produced `done` and appended `evs`. */
  function Then<X>(done: seq<X>, evs: seq<Event>, s: Step<seq<X>>): Step<seq<X>> {
    Step(if s.result.Ok? then Ok(done + s.result.value) else s.result, evs + s.events)
  }

  /** `s` run after events `evs` that produced no value. */
  function After<T>(evs: seq<Event>, s: Step<T>): Step<T> {
    Step(s.result, evs + s.events)
  }

  /** Appending events in two steps or in one. */
  lemma AppendAssoc(a: seq<Event>, b: seq<Event>, c: seq<Event>)
    ensures (a + b) + c == a + (b + c)
  {
  }

  /** Running `s` after two parts is running it after their combination. */
  lemma ThenThen<X>(a: seq<X>, e: seq<Event>, b: seq<X>, f: seq<Event>, s: Step<seq<X>>)
    ensures Then(a, e, Then(b, f, s)) == Then(a + b, e + f, s)
  {
    assert e + (f + s.events) == (e + f) + s.events;
    if s.result.Ok? {
      assert a + (b + s.result.value) == (a + b) + s.result.value;
    }
  }

  /** Nothing done before `s` is `s`. */
  lemma ThenNil<X>(s: Step<seq<X>>)
    ensures Then([], [], s) == s
  {
    assert [] + s.events == s.events;
    if s.result.Ok? {
      assert [] + s.result.value == s.result.value;
    }
  }

  /** A part followed by nothing is that part. */
  lemma ThenEmpty<X>(done: seq<X>, evs: seq<Event>)
    ensures Then(done, evs, Step(Ok([]), [])) == Step(Ok(done), evs)
  {
    assert done + [] == done && evs + [] == evs;
  }

  /** The same for parts that produce no value. */
  lemma AfterAfter<T>(e: seq<Event>, f: seq<Event>, s: Step<T>)
    ensures After(e, After(f, s)) == After(e + f, s)
  {
    assert e + (f + s.events) == (e + f) + s.events;
  }

  /** Nothing done before `s` is `s`. */
  lemma AfterNil<T>(s: Step<T>)
    ensures After([], s) == s
  {
    assert [] + s.events == s.events;
  }

  /** A part that produced no value, followed by nothing, is that part. */
  lemma AfterEmpty(evs: seq<Event>)
    ensures After(evs, Step(Ok(()), [])) == Step(Ok(()), evs)
  {
    assert evs + [] == evs;
  }

  // ---------------------------------------------------------------- parseFilePairs

  /** The split pairs of parseFilePairs' first loop (cmd/root.go:198-204). */
  function SplitAll(decls: seq<string>): (raw: seq<Pair>)
    ensures |raw| == |decls|
    ensures forall i :: 0 <= i < |decls| ==> raw[i] == ParseDeclaration(decls[i])
  {
    seq(|decls|, i requires 0 <= i < |decls| => ParseDeclaration(decls[i]))
  }

  /** Splitting one more declaration extends the split pairs by its pair. */
  lemma SplitAllSnoc(decls: seq<string>, i: nat)
    requires i < |decls|
    ensures SplitAll(decls[..i + 1]) == SplitAll(decls[..i]) + [ParseDeclaration(decls[i])]
  {
    assert decls[..i + 1][..i] == decls[..i];
  }

  /** parseFilePairs' second loop: render each source, then its dest (cmd/root.go:206-213). */
  function RenderPairs(env: Env, raw: seq<Pair>): Step<seq<Pair>>
  {
    if raw == [] then Step(Ok([]), [])
    else
      var p := raw[0];
      match env.render(p.source)
      case None => Step(Err(RenderFailed(p.source)), [Render(p.source)])
      case Some(src) =>
        match env.render(p.dest)
        case None => Step(Err(RenderFailed(p.dest)), [Render(p.source), Render(p.dest)])
        case Some(dst) => Then([Pair(src, dst)], [Render(p.source), Render(p.dest)], RenderPairs(env, raw[1..]))
  }

  /** A round of parseFilePairs' render loop at position `i` where both halves render. */
  lemma RenderPairsStep(env: Env, raw: seq<Pair>, i: nat, done: seq<Pair>, evs: seq<Event>)
    requires i < |raw|
    requires env.render(raw[i].source).Some? && env.render(raw[i].dest).Some?
    ensures var p := raw[i];
      Then(done, evs, RenderPairs(env, raw[i..])) ==
      Then(done + [Pair(env.render(p.source).value, env.render(p.dest).value)],
           evs + [Render(p.source), Render(p.dest)], RenderPairs(env, raw[i + 1..]))
  {
    assert raw[i..][0] == raw[i] && raw[i..][1..] == raw[i + 1..];
    var p := raw[i];
    ThenThen(done, evs, [Pair(env.render(p.source).value, env.render(p.dest).value)],
      [Render(p.source), Render(p.dest)], RenderPairs(env, raw[i + 1..]));
  }

  /** A round of the render loop where the source does not render. */
  lemma RenderPairsSourceFails(env: Env, raw: seq<Pair>, i: nat, done: seq<Pair>, evs: seq<Event>)
    requires i < |raw|
    requires env.render(raw[i].source).None?
    ensures Then(done, evs, RenderPairs(env, raw[i..])) ==
      Step(Err(RenderFailed(raw[i].source)), evs + [Render(raw[i].source)])
  {
    assert raw[i..][0] == raw[i];
  }

  /** A round of the render loop where the source renders and the dest does not. */
  lemma RenderPairsDestFails(env: Env, raw: seq<Pair>, i: nat, done: seq<Pair>, evs: seq<Event>)
    requires i < |raw|
    requires env.render(raw[i].source).Some? && env.render(raw[i].dest).None?
    ensures Then(done, evs, RenderPairs(env, raw[i..])) ==
      Step(Err(RenderFailed(raw[i].dest)), evs + [Render(raw[i].source), Render(raw[i].dest)])
  {
    assert raw[i..][0] == raw[i];
  }

  /** parseFilePairs (cmd/root.go:196-215). */
  function FilePairs(env: Env, decls: seq<string>): Step<seq<Pair>> {
    RenderPairs(env, SplitAll(decls))
  }

  // ---------------------------------------------------------------- parseGlobs

  /** parseGlobs' loop: every pattern's matches, concatenated in pattern order (cmd/root.go:220-231). */
  function ExpandGlobs(env: Env, h: History, globs: seq<string>): Step<seq<string>>
    decreases |globs|
  {
    if globs == [] then Step(Ok([]), [])
    else
      match env.glob(h, globs[0])
      case None => Step(Err(GlobFailed(globs[0])), [Glob(globs[0])])
      case Some(ms) => Then(ms, [Glob(globs[0])], ExpandGlobs(env, h + [Glob(globs[0])], globs[1..]))
  }

  /** parseGlobs: expand every pattern, then parse all matches as pairs (cmd/root.go:217-236). */
  function GlobPairs(env: Env, h: History, globs: seq<string>): Step<seq<Pair>> {
    var g := ExpandGlobs(env, h, globs);
    match g.result
    case Err(e) => Step(Err(e), g.events)
    case Ok(ms) => After(g.events, FilePairs(env, ms))
  }

  /** parseGlobs when its patterns expand to `ms` with events `evs`. */
  lemma GlobPairsExpanded(env: Env, h: History, globs: seq<string>, ms: seq<string>, evs: seq<Event>)
    requires ExpandGlobs(env, h, globs) == Step(Ok(ms), evs)
    ensures GlobPairs(env, h, globs) == After(evs, FilePairs(env, ms))
  {
  }

  /** parseGlobs when one of its patterns is malformed. */
  lemma GlobPairsMalformed(env: Env, h: History, globs: seq<string>, e: Error, evs: seq<Event>)
    requires ExpandGlobs(env, h, globs) == Step(Err(e), evs)
    ensures GlobPairs(env, h, globs) == Step(Err(e), evs)
  {
  }

  /** A round of parseGlobs' loop at position `i` whose pattern expands. */
  lemma ExpandGlobsStep(env: Env, globs: seq<string>, i: nat, h: History, done: seq<string>, evs: seq<Event>)
    requires i < |globs| && env.glob(h, globs[i]).Some?
    ensures Then(done, evs, ExpandGlobs(env, h, globs[i..])) ==
      Then(done + env.glob(h, globs[i]).value, evs + [Glob(globs[i])],
           ExpandGlobs(env, h + [Glob(globs[i])], globs[i + 1..]))
  {
    assert globs[i..][0] == globs[i] && globs[i..][1..] == globs[i + 1..];
    ThenThen(done, evs, env.glob(h, globs[i]).value, [Glob(globs[i])],
      ExpandGlobs(env, h + [Glob(globs[i])], globs[i + 1..]));
  }

  /** A round of parseGlobs' loop whose pattern is malformed. */
  lemma ExpandGlobsFails(env: Env, globs: seq<string>, i: nat, h: History, done: seq<string>, evs: seq<Event>)
    requires i < |globs| && env.glob(h, globs[i]).None?
    ensures Then(done, evs, ExpandGlobs(env, h, globs[i..])) ==
      Step(Err(GlobFailed(globs[i])), evs + [Glob(globs[i])])
  {
    assert globs[i..][0] == globs[i];
  }

  // ---------------------------------------------------------------- fetchDirectories

  /** How fetchDirectories moves one pair: a local directory is copied, anything else fetched. */
  function DirFetch(env: Env, h: History, p: Pair): Event {
    if env.isLocalDir(h, p.source) then CopyDir(p.source, p.dest) else Get(ModeDir, p.source, p.dest)
  }

  /** Whether that copy or fetch succeeds. */
  predicate DirFetched(env: Env, h: History, p: Pair) {
    if env.isLocalDir(h, p.source) then env.copyDir(h, p.source, p.dest)
    else env.get(h, ModeDir, p.source, p.dest)
  }

  /** fetchDirectories (cmd/root.go:238-263): one copy or fetch per pair, up to the first failure. */
  function FetchDirs(env: Env, h: History, dirs: seq<Pair>): Step<()>
    decreases |dirs|
  {
    if dirs == [] then Step(Ok(()), [])
    else
      var p := dirs[0];
      var e := DirFetch(env, h, p);
      if !DirFetched(env, h, p) then
        Step(Err(if e.CopyDir? then CopyFailed(p.source, p.dest) else GetFailed(p.source, p.dest)), [e])
      else After([e], FetchDirs(env, h + [e], dirs[1..]))
  }

  /** A round of fetchDirectories' loop at position `i` that succeeds. */
  lemma FetchDirsStep(env: Env, dirs: seq<Pair>, i: nat, h: History, evs: seq<Event>)
    requires i < |dirs| && DirFetched(env, h, dirs[i])
    ensures var e := DirFetch(env, h, dirs[i]);
      After(evs, FetchDirs(env, h, dirs[i..])) == After(evs + [e], FetchDirs(env, h + [e], dirs[i + 1..]))
  {
    assert dirs[i..][0] == dirs[i] && dirs[i..][1..] == dirs[i + 1..];
    var e := DirFetch(env, h, dirs[i]);
    AfterAfter(evs, [e], FetchDirs(env, h + [e], dirs[i + 1..]));
  }

  /** A round of fetchDirectories' loop whose copy or fetch fails. */
  lemma FetchDirsFails(env: Env, dirs: seq<Pair>, i: nat, h: History, evs: seq<Event>)
    requires i < |dirs| && !DirFetched(env, h, dirs[i])
    ensures var p := dirs[i];
      After(evs, FetchDirs(env, h, dirs[i..])) ==
      Step(Err(if env.isLocalDir(h, p.source) then CopyFailed(p.source, p.dest) else GetFailed(p.source, p.dest)),
           evs + [DirFetch(env, h, p)])
  {
    assert dirs[i..][0] == dirs[i];
  }

  // ---------------------------------------------------------------- fetchFiles

  /** fetchFiles (cmd/root.go:265-281): a file-mode fetch per pair that is not in place. */
  function FetchFiles(env: Env, h: History, files: seq<Pair>): Step<()>
    decreases |files|
  {
    if files == [] then Step(Ok(()), [])
    else
      var p := files[0];
      if p.source == p.dest then FetchFiles(env, h, files[1..])
      else
        var e := Get(ModeFile, p.source, p.dest);
        if !env.get(h, ModeFile, p.source, p.dest) then Step(Err(GetFailed(p.source, p.dest)), [e])
        else After([e], FetchFiles(env, h + [e], files[1..]))
  }

  /** A round of fetchFiles' loop that skips an in-place pair. */
  lemma FetchFilesSkip(env: Env, files: seq<Pair>, i: nat, h: History)
    requires i < |files| && files[i].InPlace()
    ensures FetchFiles(env, h, files[i..]) == FetchFiles(env, h, files[i + 1..])
  {
    assert files[i..][0] == files[i] && files[i..][1..] == files[i + 1..];
  }

  /** A round of fetchFiles' loop whose fetch succeeds. */
  lemma FetchFilesStep(env: Env, files: seq<Pair>, i: nat, h: History, evs: seq<Event>)
    requires i < |files| && !files[i].InPlace() && env.get(h, ModeFile, files[i].source, files[i].dest)
    ensures var e := Get(ModeFile, files[i].source, files[i].dest);
      After(evs, FetchFiles(env, h, files[i..])) == After(evs + [e], FetchFiles(env, h + [e], files[i + 1..]))
  {
    assert files[i..][0] == files[i] && files[i..][1..] == files[i + 1..];
    var e := Get(ModeFile, files[i].source, files[i].dest);
    AfterAfter(evs, [e], FetchFiles(env, h + [e], files[i + 1..]));
  }

  /** A round of fetchFiles' loop whose fetch fails. */
  lemma FetchFilesFails(env: Env, files: seq<Pair>, i: nat, h: History, evs: seq<Event>)
    requires i < |files| && !files[i].InPlace() && !env.get(h, ModeFile, files[i].source, files[i].dest)
    ensures After(evs, FetchFiles(env, h, files[i..])) ==
      Step(Err(GetFailed(files[i].source, files[i].dest)), evs + [Get(ModeFile, files[i].source, files[i].dest)])
  {
    assert files[i..][0] == files[i];
  }

  // ---------------------------------------------------------------- parseFileDestinationTemplates

  /** filepath.IsAbs on a Unix path. */
  predicate IsAbs(path: string) { |path| > 0 && path[0] == '/' }

  /** The absolute form of a path as cmd/root.go:286-291 computes it. */
  function AbsPath(env: Env, path: string): string {
    if IsAbs(path) then path else env.joinPwd(path)
  }

  /** execTemplateFile (cmd/root.go:314-333): read the file, render it, write it back. */
  function ExecFile(env: Env, h: History, path: string): Step<()> {
    match env.readFile(h, path)
    case None => Step(Err(ReadFailed(path)), [ReadFile(path)])
    case Some(body) =>
      match env.render(body)
      case None => Step(Err(RenderFailed(body)), [ReadFile(path), Render(body)])
      case Some(out) =>
        var evs := [ReadFile(path), Render(body), WriteFile(path, out)];
        if env.writeFile(h + [ReadFile(path), Render(body)], path, out) then Step(Ok(()), evs)
        else Step(Err(WriteFailed(path)), evs)
  }

  /**
   * The permission copy of cmd/root.go:298-302. Stat failing for another
   * reason than "does not exist" leaves `info` nil, and `info.Mode()` panics.
   */
  function CopyPerm(env: Env, h: History, p: Pair): Step<()> {
    var sp := AbsPath(env, p.source);
    var dp := AbsPath(env, p.dest);
    if sp == dp then Step(Ok(()), [])
    else
      match env.stat(h, sp)
      case Found(perm) => Step(Ok(()), [Chmod(dp, perm)])
      case NotExist => Step(Ok(()), [])
      case StatFailed => Step(Err(StatPanicked(sp)), [])
  }

  /** One iteration of parseFileDestinationTemplates' loop. */
  function TemplateFile(env: Env, h: History, p: Pair): Step<()> {
    var x := ExecFile(env, h, p.dest);
    if x.result.Err? then x else After(x.events, CopyPerm(env, h + x.events, p))
  }

  /** parseFileDestinationTemplates (cmd/root.go:283-305): all but the last pair, then the last. */
  function Templates(env: Env, h: History, files: seq<Pair>): Step<()>
    decreases |files|
  {
    if files == [] then Step(Ok(()), [])
    else
      var prev := Templates(env, h, files[..|files| - 1]);
      if prev.result.Err? then prev
      else After(prev.events, TemplateFile(env, h + prev.events, files[|files| - 1]))
  }

  /** One more round of parseFileDestinationTemplates' loop after `evs` that succeeded. */
  lemma TemplatesSnoc(env: Env, h: History, files: seq<Pair>, i: nat, evs: seq<Event>)
    requires i < |files| && Templates(env, h, files[..i]) == Step(Ok(()), evs)
    ensures Templates(env, h, files[..i + 1]) == After(evs, TemplateFile(env, h + evs, files[i]))
  {
    assert files[..i + 1][..i] == files[..i];
  }

  /** Once a prefix fails, the whole list fails the same way. */
  lemma {:induction false} TemplatesFailed(env: Env, h: History, files: seq<Pair>, i: nat)
    requires i <= |files| && Templates(env, h, files[..i]).result.Err?
    ensures Templates(env, h, files) == Templates(env, h, files[..i])
    decreases |files|
  {
    if i < |files| {
      var init := files[..|files| - 1];
      assert init[..i] == files[..i];
      TemplatesFailed(env, h, init, i);
    } else {
      assert files[..i] == files;
    }
  }

  // ---------------------------------------------------------------- parseManifests

  /** Render the reference, fetch it into a temporary file and unmarshal it (cmd/root.go:134-168). */
  function LoadManifest(env: Env, h: History, ref: string): Step<Manifest> {
    match env.render(ref)
    case None => Step(Err(RenderFailed(ref)), [Render(ref)])
    case Some(v) =>
      match env.tempFile(h + [Render(ref)])
      case None => Step(Err(TempFileFailed), [Render(ref)])
      case Some(tmp) =>
        var fetched := [Render(ref), TempFile(tmp), Get(ModeFile, v, tmp)];
        if !env.get(h + [Render(ref), TempFile(tmp)], ModeFile, v, tmp) then Step(Err(GetFailed(v, tmp)), fetched)
        else
          var read := fetched + [ReadFile(tmp)];
          match env.readFile(h + fetched, tmp)
          case None => Step(Err(ReadFailed(tmp)), read)
          case Some(buff) =>
            match env.unmarshalManifest(buff)
            case None => Step(Err(ManifestInvalid(v)), read)
            case Some(m) => Step(Ok(m), read)
  }

  /** Fetch the manifest's dirs, then expand its globs, then parse its files (cmd/root.go:170-190). */
  function ResolveManifest(env: Env, h: History, m: Manifest): Step<seq<Pair>> {
    var d := FilePairs(env, m.dirs);
    match d.result
    case Err(e) => Step(Err(e), d.events)
    case Ok(dirs) =>
      var f := FetchDirs(env, h + d.events, dirs);
      if f.result.Err? then Step(Err(f.result.error), d.events + f.events)
      else
        var g := GlobPairs(env, h + d.events + f.events, m.globs);
        match g.result
        case Err(e) => Step(Err(e), d.events + f.events + g.events)
        case Ok(gp) => Then(gp, d.events + f.events + g.events, FilePairs(env, m.files))
  }

  /** One iteration of parseManifests' loop. */
  function OneManifest(env: Env, h: History, ref: string): Step<seq<Pair>> {
    var l := LoadManifest(env, h, ref);
    match l.result
    case Err(e) => Step(Err(e), l.events)
    case Ok(m) => After(l.events, ResolveManifest(env, h + l.events, m))
  }

  /** parseManifests (cmd/root.go:129-194). */
  function Manifests(env: Env, h: History, refs: seq<string>): Step<seq<Pair>>
    decreases |refs|
  {
    if refs == [] then Step(Ok([]), [])
    else
      var one := OneManifest(env, h, refs[0]);
      if one.result.Err? then one else Then(one.result.value, one.events, Manifests(env, h + one.events, refs[1..]))
  }

  /** Whether a manifest gets as far as fetchDirectories, which leaves the client in dir mode. */
  predicate ReachesDirFetch(env: Env, h: History, ref: string) {
    var l := LoadManifest(env, h, ref);
    l.result.Ok? && FilePairs(env, l.result.value.dirs).result.Ok?
  }

  /** The client mode parseManifests leaves behind, starting from `mode`. */
  function ModeAfterManifests(env: Env, h: History, refs: seq<string>, mode: ClientMode): ClientMode
    decreases |refs|
  {
    if refs == [] then mode
    else
      var m := if ReachesDirFetch(env, h, refs[0]) then ModeDir else ModeFile;
      var one := OneManifest(env, h, refs[0]);
      if one.result.Err? then m else ModeAfterManifests(env, h + one.events, refs[1..], m)
  }

  /** A round of parseManifests' loop that succeeds. */
  lemma ManifestsStep(env: Env, refs: seq<string>, i: nat, h: History, done: seq<Pair>, evs: seq<Event>, mode: ClientMode)
    requires i < |refs| && OneManifest(env, h, refs[i]).result.Ok?
    ensures var one := OneManifest(env, h, refs[i]);
      Then(done, evs, Manifests(env, h, refs[i..])) ==
      Then(done + one.result.value, evs + one.events, Manifests(env, h + one.events, refs[i + 1..]))
    ensures ModeAfterManifests(env, h, refs[i..], mode) ==
      ModeAfterManifests(env, h + OneManifest(env, h, refs[i]).events, refs[i + 1..],
        if ReachesDirFetch(env, h, refs[i]) then ModeDir else ModeFile)
  {
    assert refs[i..][0] == refs[i] && refs[i..][1..] == refs[i + 1..];
    var one := OneManifest(env, h, refs[i]);
    ThenThen(done, evs, one.result.value, one.events, Manifests(env, h + one.events, refs[i + 1..]));
  }

  /** A round of parseManifests' loop that fails. */
  lemma ManifestsFails(env: Env, refs: seq<string>, i: nat, h: History, done: seq<Pair>, evs: seq<Event>, mode: ClientMode)
    requires i < |refs| && OneManifest(env, h, refs[i]).result.Err?
    ensures var one := OneManifest(env, h, refs[i]);
      Then(done, evs, Manifests(env, h, refs[i..])) == Step(one.result, evs + one.events)
    ensures ModeAfterManifests(env, h, refs[i..], mode) ==
      if ReachesDirFetch(env, h, refs[i]) then ModeDir else ModeFile
  {
    assert refs[i..][0] == refs[i];
  }

  // ---------------------------------------------------------------- runRootCmd

  /** The four repeatable flags of the command line (cmd/root.go:63-66). */
  datatype Flags = Flags(files: seq<string>, dirs: seq<string>, globs: seq<string>, manifests: seq<string>)

  predicate NoFlags(flags: Flags) {
    flags.files == [] && flags.dirs == [] && flags.globs == [] && flags.manifests == []
  }

  /** The stages of runRootCmd, each with its own log.Fatalf message. */
  datatype Stage = ManifestStage | DirFlagStage | GlobStage | FileFlagStage | FetchDirStage | FetchFileStage | TemplateStage

  /** How the process ends: help and exit 0, success, or log.Fatalf at a stage. */
  datatype Outcome = ShowHelp | Completed | Fatal(stage: Stage, error: Error)

  /** The package state of cmd/root.go that runRootCmd changes. */
  datatype State = State(filePairs: seq<Pair>, dirPairs: seq<Pair>, mode: ClientMode, trace: History)

  /**
   * The collecting half of runRootCmd (cmd/root.go:88-110): manifests, dir
   * flags, globs, file flags, each appending to the package slices. It returns
   * the fatal outcome of the stage that failed, if one did, and never anything
   * else, and it only appends to the trace.
   */
  function Collect(env: Env, s: State, flags: Flags): (c: (Option<Outcome>, State))
    ensures c.0.Some? ==>
              c.0.value.Fatal?
              && (c.0.value.stage.ManifestStage? || c.0.value.stage.DirFlagStage?
                  || c.0.value.stage.GlobStage? || c.0.value.stage.FileFlagStage?)
    ensures s.trace <= c.1.trace
  {
    var m := Manifests(env, s.trace, flags.manifests);
    var mode := ModeAfterManifests(env, s.trace, flags.manifests, s.mode);
    var t1 := s.trace + m.events;
    if m.result.Err? then (Some(Fatal(ManifestStage, m.result.error)), State(s.filePairs, s.dirPairs, mode, t1))
    else
      var fp1 := s.filePairs + m.result.value;
      var d := FilePairs(env, flags.dirs);
      var t2 := t1 + d.events;
      if d.result.Err? then (Some(Fatal(DirFlagStage, d.result.error)), State(fp1, s.dirPairs, mode, t2))
      else
        var dp := s.dirPairs + d.result.value;
        var g := GlobPairs(env, t2, flags.globs);
        var t3 := t2 + g.events;
        if g.result.Err? then (Some(Fatal(GlobStage, g.result.error)), State(fp1, dp, mode, t3))
        else
          var fp2 := fp1 + g.result.value;
          var f := FilePairs(env, flags.files);
          var t4 := t3 + f.events;
          if f.result.Err? then (Some(Fatal(FileFlagStage, f.result.error)), State(fp2, dp, mode, t4))
          else (None, State(fp2 + f.result.value, dp, mode, t4))
  }

  /**
   * The executing half of runRootCmd (cmd/root.go:112-126): fetch the dir
   * pairs, then the file pairs, then render the file pairs' destinations. It
   * changes no pair and only appends to the trace.
   */
  function Execute(env: Env, s: State): (r: (Outcome, State))
    ensures r.0.Completed? || r.0.Fatal?
    ensures r.1.filePairs == s.filePairs && r.1.dirPairs == s.dirPairs && s.trace <= r.1.trace
  {
    var fd := FetchDirs(env, s.trace, s.dirPairs);
    var t5 := s.trace + fd.events;
    if fd.result.Err? then (Fatal(FetchDirStage, fd.result.error), State(s.filePairs, s.dirPairs, ModeDir, t5))
    else
      var ff := FetchFiles(env, t5, s.filePairs);
      var t6 := t5 + ff.events;
      if ff.result.Err? then (Fatal(FetchFileStage, ff.result.error), State(s.filePairs, s.dirPairs, ModeFile, t6))
      else
        var tm := Templates(env, t6, s.filePairs);
        var t7 := t6 + tm.events;
        (if tm.result.Err? then Fatal(TemplateStage, tm.result.error) else Completed,
         State(s.filePairs, s.dirPairs, ModeFile, t7))
  }

  /** runRootCmd (cmd/root.go:77-127): help without flags, else collect, then execute. */
  function RunRoot(env: Env, s: State, flags: Flags): (Outcome, State) {
    if NoFlags(flags) then (ShowHelp, s)
    else
      var c := Collect(env, s, flags);
      if c.0.Some? then (c.0.value, c.1) else Execute(env, c.1)
  }
}
