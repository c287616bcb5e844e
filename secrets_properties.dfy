/**
 * What the secret functions of functions/main.go promise, proved about module
 * AwsFunctions: the clients are created at most once and retried after a failure,
 * every function bootstraps before it looks at its cache, a cache hit makes no
 * call whatever the flags, a miss makes exactly one call and caches only on
 * success, the path fold lets later names win, and no cache entry is ever
 * dropped or changed.
 */
module SecretsProperties {
  import opened Wrappers
  import opened AwsFunctions

  /** The three caches of two states are the same. */
  predicate SameCaches(a: Secrets, b: Secrets) {
    a.ssmCache == b.ssmCache && a.ssmPathCache == b.ssmPathCache && a.kmsCache == b.kmsCache
  }

  /** `m'` keeps every entry of `m`. */
  predicate Keeps<V(==)>(m: map<string, V>, m': map<string, V>) {
    forall k :: k in m ==> k in m' && m'[k] == m[k]
  }

  /**
   * From `st` to `st'` nothing is forgotten: clients that existed still exist,
   * no cache entry is dropped or changed, and calls are only appended.
   */
  predicate Grows(st: Secrets, st': Secrets) {
    (st.ssmSvc ==> st'.ssmSvc) && (st.kmsSvc ==> st'.kmsSvc)
    && Keeps(st.ssmCache, st'.ssmCache) && Keeps(st.ssmPathCache, st'.ssmPathCache)
    && Keeps(st.kmsCache, st'.kmsCache)
    && st.calls <= st'.calls
  }

  /** A map that equals `m` or `m` with one new key keeps `m`. */
  lemma KeepsUpdate<V>(m: map<string, V>, m': map<string, V>, k: string)
    requires k !in m
    requires m' == m || (k in m' && m' == m[k := m'[k]])
    ensures Keeps(m, m')
  {
  }

  /** Bootstrapping forgets nothing. */
  lemma BootstrapGrows(aws: Aws, st: Secrets)
    ensures Grows(st, Bootstrap(aws, st).after) && SameCaches(st, Bootstrap(aws, st).after)
  {
  }

  /** Growing twice is growing. */
  lemma GrowsTransitive(a: Secrets, b: Secrets, c: Secrets)
    requires Grows(a, b) && Grows(b, c)
    ensures Grows(a, c)
  {
  }

  // ---------------------------------------------------------------- bootstrapClients

  /**
   * bootstrapClients: with both clients there it does nothing; otherwise it
   * tries to create a session once, and either both clients exist afterwards or
   * neither changed, so that the next call tries again. It touches no cache.
   */
  lemma BootstrapOnce(aws: Aws, st: Secrets)
    ensures var b := Bootstrap(aws, st);
      SameCaches(st, b.after)
      && (Ready(st) ==> b == Answer(Ok(()), st))
      && (!Ready(st) ==>
            b.after.calls == st.calls + [NewSession] && (b.result.Ok? <==> aws.newSession(st.calls)))
      && (b.result.Ok? <==> Ready(b.after))
      && (b.result.Err? ==> b.result.error == SessionFailed
                            && b.after.ssmSvc == st.ssmSvc && b.after.kmsSvc == st.kmsSvc)
  {
  }

  /** After a successful bootstrap, bootstrapping again changes nothing and calls nobody. */
  lemma BootstrapIdempotent(aws: Aws, st: Secrets)
    requires Bootstrap(aws, st).result.Ok?
    ensures var s := Bootstrap(aws, st).after; Bootstrap(aws, s) == Answer(Ok(()), s)
  {
  }

  /** After a failed bootstrap, the next one asks for a session again. */
  lemma BootstrapRetries(aws: Aws, st: Secrets)
    requires Bootstrap(aws, st).result.Err?
    ensures var s := Bootstrap(aws, st).after;
      Bootstrap(aws, s).after.calls == s.calls + [NewSession]
  {
  }

  // ---------------------------------------------------------------- ssmValue

  /**
   * Every secret function bootstraps first: when that fails it panics with the
   * session error even if the answer is cached, and calls nothing else.
   */
  lemma BootstrapFirst(aws: Aws, st: Secrets, key: string, path: string, isEncrypted: bool, recursive: bool)
    requires Bootstrap(aws, st).result.Err?
    ensures var b := Bootstrap(aws, st);
      SsmValue(aws, st, key, isEncrypted) == Answer(Err(SessionFailed), b.after)
      && SsmJson(aws, st, key, isEncrypted) == Answer(Err(SessionFailed), b.after)
      && SsmPath(aws, st, path, isEncrypted, recursive) == Answer(Err(SessionFailed), b.after)
      && KmsValue(aws, st, key) == Answer(Err(SessionFailed), b.after)
  {
  }

  /** ssmValue on a cached name: the cached value, no call, whatever isEncrypted says. */
  lemma SsmValueHit(aws: Aws, st: Secrets, key: string, isEncrypted: bool)
    requires Ready(st) && key in st.ssmCache
    ensures SsmValue(aws, st, key, isEncrypted) == Answer(Ok(st.ssmCache[key]), st)
  {
  }

  /**
   * ssmValue on a name not cached: exactly one GetParameter with the name and
   * the flag; its value is cached under the name alone and returned, and a
   * failed lookup leaves the caches as they were.
   */
  lemma SsmValueMiss(aws: Aws, st: Secrets, key: string, isEncrypted: bool)
    requires Ready(st) && key !in st.ssmCache
    ensures var a := SsmValue(aws, st, key, isEncrypted); var r := aws.getParameter(st.calls, key, isEncrypted);
      a.after.calls == st.calls + [GetParameter(key, isEncrypted)]
      && Ready(a.after)
      && a.after.ssmPathCache == st.ssmPathCache && a.after.kmsCache == st.kmsCache
      && (a.result.Ok? <==> r.Some?)
      && (r.Some? ==> a.result == Ok(r.value) && a.after.ssmCache == st.ssmCache[key := r.value])
      && (r.None? ==> a.result == Err(ParameterFailed(key)) && a.after.ssmCache == st.ssmCache)
  {
  }

  /**
   * Once ssmValue has answered for a name, it answers the same for that name,
   * with either flag, and calls nobody: the cache is keyed by the name alone.
   */
  lemma SsmValueMemoized(aws: Aws, st: Secrets, key: string, isEncrypted: bool, isEncrypted': bool)
    requires SsmValue(aws, st, key, isEncrypted).result.Ok?
    ensures var a := SsmValue(aws, st, key, isEncrypted);
      SsmValue(aws, a.after, key, isEncrypted') == Answer(a.result, a.after)
  {
    var b := Bootstrap(aws, st);
    var a := SsmValue(aws, st, key, isEncrypted);
    assert Ready(a.after) && key in a.after.ssmCache && a.after.ssmCache[key] == a.result.value;
  }

  /** ssmValue forgets nothing, and when it fails it changes no cache. */
  lemma SsmValueGrows(aws: Aws, st: Secrets, key: string, isEncrypted: bool)
    ensures var a := SsmValue(aws, st, key, isEncrypted);
      Grows(st, a.after) && (a.result.Err? ==> SameCaches(st, a.after))
      && (Ready(st) ==> NewSession !in a.after.calls[|st.calls|..])
  {
    var b := Bootstrap(aws, st);
    BootstrapGrows(aws, st);
    if b.result.Ok? && key !in b.after.ssmCache {
      SsmValueMiss(aws, b.after, key, isEncrypted);
      var a := SsmValue(aws, b.after, key, isEncrypted);
      assert SsmValue(aws, st, key, isEncrypted) == a;
      KeepsUpdate(b.after.ssmCache, a.after.ssmCache, key);
      GrowsTransitive(st, b.after, a.after);
    }
  }

  // ---------------------------------------------------------------- ssmJSON

  /**
   * ssmJSON gets its text through ssmValue, so it leaves exactly the state
   * ssmValue leaves: the text is cached, the parsed map never is, and text
   * that does not parse stays cached all the same.
   */
  lemma SsmJsonCachesTextOnly(aws: Aws, st: Secrets, key: string, isEncrypted: bool)
    ensures var j := SsmJson(aws, st, key, isEncrypted); var v := SsmValue(aws, st, key, isEncrypted);
      j.after == v.after
      && (j.result.Ok? <==> v.result.Ok? && aws.parseJson(v.result.value).Some?)
      && (j.result.Ok? ==> aws.parseJson(v.result.value) == Some(j.result.value))
      && (v.result.Ok? && aws.parseJson(v.result.value).None? ==>
            j.result == Err(JsonFailed(key)) && key in j.after.ssmCache)
  {
    var b := Bootstrap(aws, st);
    if b.result.Ok? {
      BootstrapIdempotent(aws, st);
      assert SsmValue(aws, b.after, key, isEncrypted) == SsmValue(aws, st, key, isEncrypted);
    }
  }

  // ---------------------------------------------------------------- ssmPath

  /** The parameters of two runs of pages, one after the other. */
  lemma {:induction false} CollectedAppend(a: seq<seq<Param>>, b: seq<seq<Param>>)
    ensures Collected(a + b) == Collected(a) + Collected(b)
    decreases |b|
  {
    if b == [] {
      assert a + b == a;
    } else {
      var init := b[..|b| - 1];
      CollectedAppend(a, init);
      assert (a + b)[..|a + b| - 1] == a + init;
      assert (a + b)[|a + b| - 1] == b[|b| - 1];
    }
  }

  /** Every page is collected, in page order: the first page is at the front. */
  lemma CollectedCons(p: seq<Param>, rest: seq<seq<Param>>)
    ensures Collected([p] + rest) == p + Collected(rest)
  {
    CollectedAppend([p], rest);
    assert [p][..0] == [];
  }

  /** The fold knows exactly the names of the parameters. */
  lemma {:induction false} FoldParamsKeys(objects: seq<Param>)
    ensures forall k :: k in FoldParams(objects) <==> exists i :: 0 <= i < |objects| && objects[i].name == k
    decreases |objects|
  {
    if objects != [] {
      var init := objects[..|objects| - 1];
      var last := objects[|objects| - 1];
      FoldParamsKeys(init);
      assert FoldParams(objects) == FoldParams(init)[last.name := last.value];
      forall k | k in FoldParams(objects)
        ensures exists i :: 0 <= i < |objects| && objects[i].name == k
      {
        if k != last.name {
          assert k in FoldParams(init);
          var i :| 0 <= i < |init| && init[i].name == k;
          assert objects[i].name == k;
        }
      }
      forall k | exists i :: 0 <= i < |objects| && objects[i].name == k
        ensures k in FoldParams(objects)
      {
        var i :| 0 <= i < |objects| && objects[i].name == k;
        if i < |init| {
          assert init[i].name == k;
        }
      }
    }
  }

  /** For every name the fold holds the value of the last parameter with that name. */
  lemma {:induction false} FoldParamsLastWins(objects: seq<Param>, i: nat)
    requires i < |objects|
    requires forall j :: i < j < |objects| ==> objects[j].name != objects[i].name
    ensures objects[i].name in FoldParams(objects)
    ensures FoldParams(objects)[objects[i].name] == objects[i].value
    decreases |objects|
  {
    var n := |objects| - 1;
    if i < n {
      var init := objects[..n];
      FoldParamsLastWins(init, i);
    }
  }

  /** ssmPath on a cached path: the cached map, no call, whatever the flags say. */
  lemma SsmPathHit(aws: Aws, st: Secrets, path: string, isEncrypted: bool, recursive: bool)
    requires Ready(st) && path in st.ssmPathCache
    ensures SsmPath(aws, st, path, isEncrypted, recursive) == Answer(Ok(st.ssmPathCache[path]), st)
  {
  }

  /**
   * ssmPath on a path not cached: one paged lookup with the path and both
   * flags; when every page came through, the fold of all pages' parameters is
   * cached under the path alone and returned; otherwise no cache changes.
   */
  lemma SsmPathMiss(aws: Aws, st: Secrets, path: string, isEncrypted: bool, recursive: bool)
    requires Ready(st) && path !in st.ssmPathCache
    ensures var a := SsmPath(aws, st, path, isEncrypted, recursive);
      var paging := aws.parametersByPath(st.calls, path, isEncrypted, recursive);
      a.after.calls == st.calls + [GetParametersByPath(path, isEncrypted, recursive)]
      && Ready(a.after)
      && a.after.ssmCache == st.ssmCache && a.after.kmsCache == st.kmsCache
      && (a.result.Ok? <==> paging.complete)
      && (paging.complete ==>
            a.result == Ok(FoldParams(Collected(paging.pages)))
            && a.after.ssmPathCache == st.ssmPathCache[path := FoldParams(Collected(paging.pages))])
      && (!paging.complete ==> a.result == Err(PathFailed(path)) && a.after.ssmPathCache == st.ssmPathCache)
  {
  }

  /** ssmPath forgets nothing, and when it fails it changes no cache. */
  lemma SsmPathGrows(aws: Aws, st: Secrets, path: string, isEncrypted: bool, recursive: bool)
    ensures var a := SsmPath(aws, st, path, isEncrypted, recursive);
      Grows(st, a.after) && (a.result.Err? ==> SameCaches(st, a.after))
      && (Ready(st) ==> NewSession !in a.after.calls[|st.calls|..])
  {
    var b := Bootstrap(aws, st);
    BootstrapGrows(aws, st);
    if b.result.Ok? && path !in b.after.ssmPathCache {
      SsmPathMiss(aws, b.after, path, isEncrypted, recursive);
      var a := SsmPath(aws, b.after, path, isEncrypted, recursive);
      assert SsmPath(aws, st, path, isEncrypted, recursive) == a;
      KeepsUpdate(b.after.ssmPathCache, a.after.ssmPathCache, path);
      GrowsTransitive(st, b.after, a.after);
    }
  }

  // ---------------------------------------------------------------- kmsValue

  /**
   * kmsValue on a cached ciphertext: the cached plaintext, no call; the cache
   * is looked up by the ciphertext as given, before any decoding, so even text
   * that is not base64 is answered from it.
   */
  lemma KmsValueHit(aws: Aws, st: Secrets, cipherText: string)
    requires Ready(st) && cipherText in st.kmsCache
    ensures KmsValue(aws, st, cipherText) == Answer(Ok(st.kmsCache[cipherText]), st)
  {
  }

  /**
   * kmsValue on a ciphertext not cached: text that is not base64 panics before
   * any call; otherwise one Decrypt of the decoded blob, whose plaintext is
   * cached under the ciphertext and returned; a failure adds no entry.
   */
  lemma KmsValueMiss(aws: Aws, st: Secrets, cipherText: string)
    requires Ready(st) && cipherText !in st.kmsCache
    ensures var a := KmsValue(aws, st, cipherText); var blob := aws.decodeBase64(cipherText);
      a.after.ssmCache == st.ssmCache && a.after.ssmPathCache == st.ssmPathCache && Ready(a.after)
      && (blob.None? ==> a == Answer(Err(DecodeFailed(cipherText)), st))
      && (blob.Some? ==>
            var plain := aws.decrypt(st.calls, blob.value);
            a.after.calls == st.calls + [Decrypt(blob.value)]
            && (plain.None? ==> a.result == Err(DecryptFailed(cipherText)) && a.after.kmsCache == st.kmsCache)
            && (plain.Some? ==> a.result == Ok(plain.value) && a.after.kmsCache == st.kmsCache[cipherText := plain.value]))
  {
  }

  /** kmsValue forgets nothing, and when it fails it changes no cache. */
  lemma KmsValueGrows(aws: Aws, st: Secrets, cipherText: string)
    ensures var a := KmsValue(aws, st, cipherText);
      Grows(st, a.after) && (a.result.Err? ==> SameCaches(st, a.after))
      && (Ready(st) ==> NewSession !in a.after.calls[|st.calls|..])
  {
    var b := Bootstrap(aws, st);
    BootstrapGrows(aws, st);
    if b.result.Ok? && cipherText !in b.after.kmsCache {
      KmsValueMiss(aws, b.after, cipherText);
      var a := KmsValue(aws, b.after, cipherText);
      assert KmsValue(aws, st, cipherText) == a;
      KeepsUpdate(b.after.kmsCache, a.after.kmsCache, cipherText);
      GrowsTransitive(st, b.after, a.after);
    }
  }

  // ---------------------------------------------------------------- over many calls

  /** A call of one of the four template functions. */
  datatype Use =
    | UseSsm(key: string, isEncrypted: bool)
    | UseSsmJson(key: string, isEncrypted: bool)
    | UseSsmPath(path: string, isEncrypted: bool, recursive: bool)
    | UseKms(cipherText: string)

  /** The state after one use. */
  function Apply(aws: Aws, st: Secrets, u: Use): Secrets {
    match u
    case UseSsm(key, enc) => SsmValue(aws, st, key, enc).after
    case UseSsmJson(key, enc) => SsmJson(aws, st, key, enc).after
    case UseSsmPath(path, enc, rec) => SsmPath(aws, st, path, enc, rec).after
    case UseKms(ct) => KmsValue(aws, st, ct).after
  }

  /** The state after a run of uses, one after the other. */
  function Run(aws: Aws, st: Secrets, uses: seq<Use>): Secrets
    decreases |uses|
  {
    if uses == [] then st else Run(aws, Apply(aws, st, uses[0]), uses[1..])
  }

  /** One use forgets nothing, and once both clients exist it never asks for a session. */
  lemma ApplyGrows(aws: Aws, st: Secrets, u: Use)
    ensures Grows(st, Apply(aws, st, u))
    ensures Ready(st) ==> NewSession !in Apply(aws, st, u).calls[|st.calls|..]
  {
    match u
    case UseSsm(key, enc) =>
      SsmValueGrows(aws, st, key, enc);
      assert Apply(aws, st, u) == SsmValue(aws, st, key, enc).after;
    case UseSsmJson(key, enc) =>
      SsmJsonCachesTextOnly(aws, st, key, enc);
      SsmValueGrows(aws, st, key, enc);
      assert Apply(aws, st, u) == SsmValue(aws, st, key, enc).after;
    case UseSsmPath(path, enc, rec) =>
      SsmPathGrows(aws, st, path, enc, rec);
      assert Apply(aws, st, u) == SsmPath(aws, st, path, enc, rec).after;
    case UseKms(ct) =>
      KmsValueGrows(aws, st, ct);
      assert Apply(aws, st, u) == KmsValue(aws, st, ct).after;
  }

  /**
   * Caches are never invalidated: over any run of template functions no cache
   * entry is dropped or changed, clients once created stay, and once both
   * exist no further session is created, so initialization succeeds at most
   * once.
   */
  lemma {:induction false} RunGrows(aws: Aws, st: Secrets, uses: seq<Use>)
    ensures Grows(st, Run(aws, st, uses))
    ensures Ready(st) ==> NewSession !in Run(aws, st, uses).calls[|st.calls|..]
    decreases |uses|
  {
    if uses != [] {
      var st1 := Apply(aws, st, uses[0]);
      ApplyGrows(aws, st, uses[0]);
      RunGrows(aws, st1, uses[1..]);
      var st2 := Run(aws, st1, uses[1..]);
      GrowsTransitive(st, st1, st2);
      if Ready(st) {
        assert st2.calls[|st.calls|..] == st1.calls[|st.calls|..] + st2.calls[|st1.calls|..];
      }
    }
  }

  /** So a name ssmValue has answered for is answered the same way after any run. */
  lemma SsmValueStaysMemoized(aws: Aws, st: Secrets, key: string, isEncrypted: bool, uses: seq<Use>, isEncrypted': bool)
    requires SsmValue(aws, st, key, isEncrypted).result.Ok?
    ensures var a := SsmValue(aws, st, key, isEncrypted); var s := Run(aws, a.after, uses);
      SsmValue(aws, s, key, isEncrypted') == Answer(a.result, s)
  {
    var a := SsmValue(aws, st, key, isEncrypted);
    SsmValueMemoized(aws, st, key, isEncrypted, isEncrypted);
    RunGrows(aws, a.after, uses);
    var s := Run(aws, a.after, uses);
    assert Ready(s) && key in s.ssmCache;
  }
}
