/**
 * The template functions of functions/main.go as the stateful code they are:
 * the package variables `ssmSvc`, `kmsSvc` and the three caches are fields of
 * one object, AWS is reached through oracle methods that log each call, and
 * every function is proved to return, and to leave behind, exactly what the
 * matching function of module AwsFunctions describes.
 */
module Functions {
  import opened Wrappers
  import opened AwsFunctions

  class SecretFunctions {
    /** AWS, base64 and JSON. */
    const aws: Aws
    /** functions/main.go:17, whether the SSM client exists. */
    var ssmSvc: bool
    /** functions/main.go:18, whether the KMS client exists. */
    var kmsSvc: bool
    /** functions/main.go:19, parameter name to value. */
    var ssmCache: map<string, string>
    /** functions/main.go:20, parameter path to the name-to-value map under it. */
    var ssmPathCache: map<string, map<string, string>>
    /** functions/main.go:21, ciphertext to plaintext. */
    var kmsCache: map<string, string>
    /** The calls made to AWS so far. */
    var calls: Log

    /** The package as it is loaded: no clients, empty caches. */
    constructor (aws: Aws)
      ensures this.aws == aws && Snapshot() == Initial()
    {
      this.aws := aws;
      ssmSvc, kmsSvc := false, false;
      ssmCache, ssmPathCache, kmsCache := map[], map[], map[];
      calls := [];
    }

    /** The package state as one value. */
    function Snapshot(): Secrets
      reads this
    {
      Secrets(ssmSvc, kmsSvc, ssmCache, ssmPathCache, kmsCache, calls)
    }

    /** newAwsSession, logged. */
    method NewAwsSession() returns (ok: bool)
      modifies this`calls
      ensures ok == aws.newSession(old(calls)) && calls == old(calls) + [NewSession]
    {
      ok := aws.newSession(calls);
      calls := calls + [NewSession];
    }

    /** ssmSvc.GetParameter, logged. */
    method RequestParameter(key: string, isEncrypted: bool) returns (r: Option<string>)
      modifies this`calls
      ensures r == aws.getParameter(old(calls), key, isEncrypted)
      ensures calls == old(calls) + [GetParameter(key, isEncrypted)]
    {
      r := aws.getParameter(calls, key, isEncrypted);
      calls := calls + [GetParameter(key, isEncrypted)];
    }

    /**
     * ssmSvc.GetParametersByPathPages with the callback of
     * functions/main.go:122-126, which appends each page's parameters to
     * `objects`; `ok` is false when the paging ended in an error.
     */
    method GetParametersByPathPages(path: string, isEncrypted: bool, recursive: bool)
      returns (objects: seq<Param>, ok: bool)
      modifies this`calls
      ensures var paging := aws.parametersByPath(old(calls), path, isEncrypted, recursive);
        objects == Collected(paging.pages) && ok == paging.complete
      ensures calls == old(calls) + [GetParametersByPath(path, isEncrypted, recursive)]
    {
      var paging := aws.parametersByPath(calls, path, isEncrypted, recursive);
      calls := calls + [GetParametersByPath(path, isEncrypted, recursive)];
      objects := [];
      var i := 0;
      while i < |paging.pages|
        invariant 0 <= i <= |paging.pages|
        invariant objects == Collected(paging.pages[..i])
      {
        assert paging.pages[..i + 1][..i] == paging.pages[..i];
        objects := objects + paging.pages[i];
        i := i + 1;
      }
      assert paging.pages[..i] == paging.pages;
      ok := paging.complete;
    }

    /** kmsSvc.Decrypt, logged. */
    method DecryptBlob(blob: Bytes) returns (r: Option<string>)
      modifies this`calls
      ensures r == aws.decrypt(old(calls), blob) && calls == old(calls) + [Decrypt(blob)]
    {
      r := aws.decrypt(calls, blob);
      calls := calls + [Decrypt(blob)];
    }

    /** bootstrapClients (functions/main.go:25-36). */
    method BootstrapClients() returns (r: Result<(), Failure>)
      modifies this`ssmSvc, this`kmsSvc, this`calls
      ensures Answer(r, Snapshot()) == Bootstrap(aws, old(Snapshot()))
    {
      if !ssmSvc || !kmsSvc {
        var ok := NewAwsSession();
        if !ok {
          return Err(SessionFailed);
        }
        ssmSvc := true;
        kmsSvc := true;
      }
      return Ok(());
    }

    /** ssmValue (functions/main.go:69-89). */
    method SsmValue(key: string, isEncrypted: bool) returns (r: Result<string, Failure>)
      modifies this`ssmSvc, this`kmsSvc, this`ssmCache, this`calls
      ensures Answer(r, Snapshot()) == AwsFunctions.SsmValue(aws, old(Snapshot()), key, isEncrypted)
    {
      var b := BootstrapClients();
      if b.Err? {
        return Err(b.error);
      }
      if key in ssmCache {
        return Ok(ssmCache[key]);
      }
      var resp := RequestParameter(key, isEncrypted);
      if resp.None? {
        return Err(ParameterFailed(key));
      }
      ssmCache := ssmCache[key := resp.value];
      return Ok(ssmCache[key]);
    }

    /** json.Unmarshal. */
    method Unmarshal(data: string) returns (r: Option<map<string, JsonValue>>)
      ensures r == aws.parseJson(data)
    {
      r := aws.parseJson(data);
    }

    /** ssmJSON (functions/main.go:91-102). */
    method SsmJson(key: string, isEncrypted: bool) returns (r: Result<map<string, JsonValue>, Failure>)
      modifies this`ssmSvc, this`kmsSvc, this`ssmCache, this`calls
      ensures Answer(r, Snapshot()) == AwsFunctions.SsmJson(aws, old(Snapshot()), key, isEncrypted)
    {
      var b := BootstrapClients();
      if b.Err? {
        return Err(b.error);
      }
      var data := SsmValue(key, isEncrypted);
      if data.Err? {
        return Err(data.error);
      }
      var m := Unmarshal(data.value);
      if m.None? {
        return Err(JsonFailed(key));
      }
      return Ok(m.value);
    }

    /** ssmPath (functions/main.go:104-136). */
    method SsmPath(path: string, isEncrypted: bool, recursive: bool) returns (r: Result<map<string, string>, Failure>)
      modifies this`ssmSvc, this`kmsSvc, this`ssmPathCache, this`calls
      ensures Answer(r, Snapshot()) == AwsFunctions.SsmPath(aws, old(Snapshot()), path, isEncrypted, recursive)
    {
      var b := BootstrapClients();
      if b.Err? {
        return Err(b.error);
      }
      if path in ssmPathCache {
        return Ok(ssmPathCache[path]);
      }
      var m: map<string, string> := map[];
      var objects, ok := GetParametersByPathPages(path, isEncrypted, recursive);
      if !ok {
        return Err(PathFailed(path));
      }
      var i := 0;
      while i < |objects|
        invariant 0 <= i <= |objects|
        invariant m == FoldParams(objects[..i])
      {
        assert objects[..i + 1][..i] == objects[..i];
        m := m[objects[i].name := objects[i].value];
        i := i + 1;
      }
      assert objects[..i] == objects;
      ssmPathCache := ssmPathCache[path := m];
      return Ok(m);
    }

    /** kmsValue (functions/main.go:138-159). */
    method KmsValue(cipherText: string) returns (r: Result<string, Failure>)
      modifies this`ssmSvc, this`kmsSvc, this`kmsCache, this`calls
      ensures Answer(r, Snapshot()) == AwsFunctions.KmsValue(aws, old(Snapshot()), cipherText)
    {
      var b := BootstrapClients();
      if b.Err? {
        return Err(b.error);
      }
      if cipherText in kmsCache {
        return Ok(kmsCache[cipherText]);
      }
      var blob := aws.decodeBase64(cipherText);
      if blob.None? {
        return Err(DecodeFailed(cipherText));
      }
      var resp := DecryptBlob(blob.value);
      if resp.None? {
        return Err(DecryptFailed(cipherText));
      }
      kmsCache := kmsCache[cipherText := resp.value];
      return Ok(kmsCache[cipherText]);
    }
  }

  /** What a name of the template function map stands for. */
  datatype TemplateFunc =
    | SsmFunc      // ssmValue
    | SsmJsonFunc  // ssmJSON
    | SsmPathFunc  // ssmPath
    | KmsFunc      // kmsValue
    | SprigFunc(name: string)  // the function sprig.TxtFuncMap binds to the name

  /** The names this package defines. */
  const OwnNames: set<string> := {"ssm", "ssmJSON", "ssmPath", "kms"}

  /**
   * FuncMap (functions/main.go:54-67): the four AWS functions, then every name
   * of sprig's map copied over them, so a sprig name wins over an own one. The
   * names of sprig's map arrive in an order that is not fixed, modelled as an
   * arbitrary choice; the result does not depend on it.
   */
  method FuncMap(sprig: set<string>) returns (m: map<string, TemplateFunc>)
    ensures m.Keys == OwnNames + sprig
    ensures forall k :: k in sprig ==> m[k] == SprigFunc(k)
    ensures "ssm" !in sprig ==> m["ssm"] == SsmFunc
    ensures "ssmJSON" !in sprig ==> m["ssmJSON"] == SsmJsonFunc
    ensures "ssmPath" !in sprig ==> m["ssmPath"] == SsmPathFunc
    ensures "kms" !in sprig ==> m["kms"] == KmsFunc
  {
    m := map["ssm" := SsmFunc, "ssmJSON" := SsmJsonFunc, "ssmPath" := SsmPathFunc, "kms" := KmsFunc];
    var rest := sprig;
    while rest != {}
      invariant rest <= sprig
      invariant m.Keys == OwnNames + (sprig - rest)
      invariant forall k :: k in sprig - rest ==> m[k] == SprigFunc(k)
      invariant forall k :: k in OwnNames - (sprig - rest) ==>
        m[k] == (if k == "ssm" then SsmFunc else if k == "ssmJSON" then SsmJsonFunc
                 else if k == "ssmPath" then SsmPathFunc else KmsFunc)
      decreases |rest|
    {
      var k :| k in rest;
      m := m[k := SprigFunc(k)];
      rest := rest - {k};
    }
  }
}
