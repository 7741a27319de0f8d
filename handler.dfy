// The API handlers that keep state: the alias registry (add, update, delete
// over the ordered alias list and the name-keyed provider map), the batch
// move's bookkeeping and the photo-list limit. HTTP decoding and encoding
// are stripped: a handler takes the decoded request and returns the status.

module Api {
  import opened Wrappers
  import opened Strings
  import opened Config

  const StatusOK := 200
  const StatusCreated := 201
  const StatusBadRequest := 400
  const StatusNotFound := 404
  const StatusConflict := 409
  const StatusInternalError := 500

  /** What a provider in the map was built from. */
  datatype ProviderConfig =
    | LocalConfig(root: string)
    | S3Config(endpoint: string, accessKey: string, secretKey: string, useSSL: bool,
               bucket: string, prefix: string, region: string)

  /** Some alias carries `name`. */
  predicate HasName(aliases: seq<Alias>, name: string) {
    exists i :: 0 <= i < |aliases| && aliases[i].name == name
  }

  /** No two aliases share a name. */
  predicate DistinctNames(aliases: seq<Alias>) {
    forall i, j :: 0 <= i < j < |aliases| ==> aliases[i].name != aliases[j].name
  }

  // ---------------------------------------------------------------------------
  // Endpoints and provider configurations

  /** The TLS flag and host the handlers derive from an endpoint URL: TLS
      exactly for "https://"; then "https://" and "http://" are stripped in
      that order. */
  function SplitEndpoint(endpoint: string): (r: (bool, string))
    ensures r.0 <==> HasPrefix(endpoint, "https://")
    ensures HasSuffix(endpoint, r.1)
  {
    var afterHttps := TrimPrefix(endpoint, "https://");
    var host := TrimPrefix(afterHttps, "http://");
    assert HasSuffix(endpoint, afterHttps);
    assert HasSuffix(afterHttps, host);
    assert endpoint[|endpoint| - |host|..] == afterHttps[|afterHttps| - |host|..];
    (HasPrefix(endpoint, "https://"), host)
  }

  /** A host without a scheme comes back from either URL form, and with the
      matching TLS flag. */
  lemma SplitEndpointOfUrl(host: string)
    requires !HasPrefix(host, "http://") && !HasPrefix(host, "https://")
    ensures SplitEndpoint("https://" + host) == (true, host)
    ensures SplitEndpoint("http://" + host) == (false, host)
    ensures SplitEndpoint(host) == (false, host)
  {
    var s := "https://" + host;
    assert s[..8] == "https://";
    assert s[8..] == host;
    var t := "http://" + host;
    assert t[..7] == "http://";
    assert t[7..] == host;
    assert t[4] != "https://"[4];
  }

  /** The provider an alias is built into. */
  function ProviderOf(a: Alias): ProviderConfig {
    if a.kind == LocalType then LocalConfig(a.path)
    else
      var (useSSL, host) := SplitEndpoint(a.endpoint);
      S3Config(host, a.accessKey, a.secretKey, useSSL, a.bucket, a.path, a.region)
  }

  // ---------------------------------------------------------------------------
  // Adding an alias

  /** The alias carries what its type needs: a path for a local alias;
      bucket, endpoint and both keys for an S3 alias. */
  predicate Complete(a: Alias) {
    || (a.kind == LocalType && a.path != "")
    || (a.kind == S3Type && a.bucket != "" && a.endpoint != "" && a.accessKey != "" && a.secretKey != "")
  }

  /** The status handleAddAlias refuses a request with, if it does.
      `buildOk` is whether building the provider succeeds. */
  function AddRejection(aliases: seq<Alias>, req: Alias, buildOk: bool): (r: Option<int>)
    ensures r.None? <==> req.name != "" && !HasName(aliases, req.name) && Complete(req) && buildOk
    ensures r == Some(StatusConflict) <==> req.name != "" && req.kind != "" && HasName(aliases, req.name)
    ensures r.Some? ==> r.value == StatusBadRequest || r.value == StatusConflict
  {
    if req.name == "" || req.kind == "" then Some(StatusBadRequest)
    else if HasName(aliases, req.name) then Some(StatusConflict)
    else if req.kind == LocalType then
      if req.path == "" || !buildOk then Some(StatusBadRequest) else None
    else if req.kind == S3Type then
      if req.bucket == "" || req.endpoint == "" || req.accessKey == "" || req.secretKey == "" || !buildOk
      then Some(StatusBadRequest) else None
    else Some(StatusBadRequest)
  }

  /** Appending an alias whose name is new keeps the names distinct. */
  lemma AppendKeepsNamesDistinct(aliases: seq<Alias>, a: Alias)
    requires DistinctNames(aliases) && !HasName(aliases, a.name)
    ensures DistinctNames(aliases + [a])
  {
    var r := aliases + [a];
    forall i, j | 0 <= i < j < |r| ensures r[i].name != r[j].name {
      if j == |aliases| {
        assert r[i] == aliases[i];
      } else {
        assert r[i] == aliases[i] && r[j] == aliases[j];
      }
    }
  }

  // ---------------------------------------------------------------------------
  // Updating an alias

  /** The body of a PUT to the alias endpoint. */
  datatype UpdateRequest = UpdateRequest(
    oldName: string,
    newName: string,
    path: string,
    bucket: string,
    endpoint: string,
    region: string,
    accessKey: string,
    secretKey: string)

  /** The first index of the alias named `name`, if any. */
  function FindAlias(aliases: seq<Alias>, name: string): (r: Option<nat>)
    ensures r.Some? ==> r.value < |aliases| && aliases[r.value].name == name
    ensures r.Some? ==> forall k :: 0 <= k < r.value ==> aliases[k].name != name
    ensures r.None? <==> !HasName(aliases, name)
  {
    if aliases == [] then None
    else if aliases[0].name == name then Some(0)
    else match FindAlias(aliases[1..], name)
      case None =>
        assert forall k :: 1 <= k < |aliases| ==> aliases[k] == aliases[1..][k - 1];
        None
      case Some(k) => Some(k + 1)
  }

  /** The alias after an update: it takes the new name; the path is
      overwritten when the request has one and always for a local alias;
      an S3 alias's other fields are overwritten only by non-empty values;
      the type, and every other field of a non-S3 alias, never change. */
  function Updated(a: Alias, req: UpdateRequest): (u: Alias)
    ensures u.name == req.newName && u.kind == a.kind
    ensures u.path == (if req.path != "" || a.kind == LocalType then req.path else a.path)
    ensures a.kind != S3Type ==> u.(name := a.name, path := a.path) == a
    ensures a.kind == S3Type ==>
      && u.bucket == (if req.bucket != "" then req.bucket else a.bucket)
      && u.endpoint == (if req.endpoint != "" then req.endpoint else a.endpoint)
      && u.region == (if req.region != "" then req.region else a.region)
      && u.accessKey == (if req.accessKey != "" then req.accessKey else a.accessKey)
      && u.secretKey == (if req.secretKey != "" then req.secretKey else a.secretKey)
  {
    var u := a.(name := req.newName,
                path := if req.path != "" || a.kind == LocalType then req.path else a.path);
    if a.kind == S3Type then
      u.(bucket := if req.bucket != "" then req.bucket else a.bucket,
         endpoint := if req.endpoint != "" then req.endpoint else a.endpoint,
         region := if req.region != "" then req.region else a.region,
         accessKey := if req.accessKey != "" then req.accessKey else a.accessKey,
         secretKey := if req.secretKey != "" then req.secretKey else a.secretKey)
    else u
  }

  /** The provider-map step for an alias of neither type: the provider is
      stored under the new name, then the old name is deleted. */
  function MoveKey(m: map<string, ProviderConfig>, oldName: string, newName: string): (r: map<string, ProviderConfig>)
    ensures oldName !in m ==> r == m
    ensures oldName in m && oldName != newName ==> r == (m - {oldName})[newName := m[oldName]]
    ensures oldName in m && oldName == newName ==> r == m - {oldName}
  {
    if oldName in m then m[newName := m[oldName]] - {oldName} else m
  }

  /** Renaming one alias to a name no other alias has keeps the names distinct. */
  lemma RenameKeepsNamesDistinct(aliases: seq<Alias>, i: nat, a: Alias)
    requires DistinctNames(aliases) && i < |aliases|
    requires a.name == aliases[i].name || !HasName(aliases, a.name)
    ensures DistinctNames(aliases[i := a])
  {
    var r := aliases[i := a];
    forall j, k | 0 <= j < k < |r| ensures r[j].name != r[k].name {
      if j == i {
        assert r[k] == aliases[k];
      } else if k == i {
        assert r[j] == aliases[j];
      }
    }
  }

  // ---------------------------------------------------------------------------
  // Deleting an alias

  /** The aliases that do not carry `name`, in their order. */
  function Without(aliases: seq<Alias>, name: string): (r: seq<Alias>)
    ensures |r| <= |aliases|
  {
    if aliases == [] then []
    else
      var n := |aliases| - 1;
      Without(aliases[..n], name) + (if aliases[n].name == name then [] else [aliases[n]])
  }

  /** Deleting removes exactly the aliases carrying the name, and removes
      at least one when some alias carries it. */
  lemma {:induction false} WithoutRemovesName(aliases: seq<Alias>, name: string)
    ensures forall a :: a in Without(aliases, name) <==> a in aliases && a.name != name
    ensures HasName(aliases, name) ==> |Without(aliases, name)| < |aliases|
    ensures !HasName(aliases, name) ==> Without(aliases, name) == aliases
  {
    if aliases != [] {
      var n := |aliases| - 1;
      var init := aliases[..n];
      WithoutRemovesName(init, name);
      assert aliases == init + [aliases[n]];
      if HasName(aliases, name) && aliases[n].name != name {
        var i :| 0 <= i < |aliases| && aliases[i].name == name;
        assert init[i].name == name;
      }
      if !HasName(aliases, name) {
        forall i | 0 <= i < |init| ensures init[i].name != name {
          assert init[i] == aliases[i];
        }
      }
    }
  }

  /** Dropping the last alias keeps the names distinct. */
  lemma InitKeepsNamesDistinct(aliases: seq<Alias>)
    requires aliases != [] && DistinctNames(aliases)
    ensures DistinctNames(aliases[..|aliases| - 1])
  {
    var init := aliases[..|aliases| - 1];
    forall i, j | 0 <= i < j < |init| ensures init[i].name != init[j].name {
      assert init[i] == aliases[i] && init[j] == aliases[j];
    }
  }

  /** With distinct names, no alias before the last one shares its name. */
  lemma LastNameIsNew(aliases: seq<Alias>, a: Alias)
    requires aliases != [] && DistinctNames(aliases)
    requires a in aliases[..|aliases| - 1]
    ensures a.name != aliases[|aliases| - 1].name
  {
    var i :| 0 <= i < |aliases| - 1 && aliases[..|aliases| - 1][i] == a;
    assert aliases[i] == a;
  }

  /** Deleting keeps distinct names distinct. */
  lemma {:induction false} WithoutKeepsNamesDistinct(aliases: seq<Alias>, name: string)
    requires DistinctNames(aliases)
    ensures DistinctNames(Without(aliases, name))
  {
    if aliases != [] {
      var n := |aliases| - 1;
      var init := aliases[..n];
      InitKeepsNamesDistinct(aliases);
      WithoutKeepsNamesDistinct(init, name);
      if aliases[n].name != name {
        var w := Without(init, name);
        WithoutRemovesName(init, name);
        forall k | 0 <= k < |w| ensures w[k].name != aliases[n].name {
          assert w[k] in init;
          LastNameIsNew(aliases, w[k]);
        }
        AppendKeepsNamesDistinct(w, aliases[n]);
      }
    }
  }

  // ---------------------------------------------------------------------------
  // Moving photos between aliases

  /** The body of a POST to the move endpoint. */
  datatype MoveRequest = MoveRequest(alias: string, paths: seq<string>, destAlias: string, destPath: string)

  /** How the provider calls for one path end: Move for a move inside one
      alias; reading the source, uploading to the destination and deleting
      the source for a move across aliases. */
  datatype StepOutcome = StepOutcome(moveOk: bool, readOk: bool, uploadOk: bool, deleteOk: bool)

  /** A provider call the move issues. */
  datatype ProviderCall =
    | MoveCall(src: string, dest: string)
    | ReadCall(src: string)
    | UploadCall(dest: string)
    | DeleteCall(src: string)

  /** Where a path lands: its base name, under the destination directory
      when one is given. */
  function DestFilePath(destPath: string, path: string): (r: string)
    ensures HasSuffix(r, Base(path))
    ensures destPath == "" ==> r == Base(path)
    ensures destPath != "" ==>
      var dir := StripTrailingSlashes(destPath);
      HasPrefix(r, dir) && |r| > |dir| && r[|dir|] == '/'
  {
    var filename := Base(path);
    if destPath == "" then filename else Join(destPath, filename)
  }

  /** A path counts as moved when Move succeeds, or across aliases when the
      read and the upload succeed, whether or not the source delete does. */
  predicate StepSucceeded(sameAlias: bool, o: StepOutcome) {
    if sameAlias then o.moveOk else o.readOk && o.uploadOk
  }

  /** The provider calls issued for one path. */
  function StepCalls(sameAlias: bool, path: string, dest: string, o: StepOutcome): (cs: seq<ProviderCall>)
    ensures 1 <= |cs| <= 3
    ensures sameAlias ==> cs == [MoveCall(path, dest)]
    ensures !sameAlias ==> cs[0] == ReadCall(path)
    ensures (DeleteCall(path) in cs) <==> !sameAlias && o.readOk && o.uploadOk
  {
    if sameAlias then [MoveCall(path, dest)]
    else if !o.readOk then [ReadCall(path)]
    else if !o.uploadOk then [ReadCall(path), UploadCall(dest)]
    else [ReadCall(path), UploadCall(dest), DeleteCall(path)]
  }

  /** The paths reported moved, in request order; `outcome(i)` is how the
      calls for the i-th path end. */
  function MovedPaths(paths: seq<string>, sameAlias: bool, outcome: nat -> StepOutcome): seq<string> {
    if paths == [] then []
    else
      var n := |paths| - 1;
      MovedPaths(paths[..n], sameAlias, outcome) + (if StepSucceeded(sameAlias, outcome(n)) then [paths[n]] else [])
  }

  /** The paths reported failed, in request order. */
  function FailedPaths(paths: seq<string>, sameAlias: bool, outcome: nat -> StepOutcome): seq<string> {
    if paths == [] then []
    else
      var n := |paths| - 1;
      FailedPaths(paths[..n], sameAlias, outcome) + (if StepSucceeded(sameAlias, outcome(n)) then [] else [paths[n]])
  }

  /** Every provider call of the move, path by path. */
  function MoveCalls(paths: seq<string>, sameAlias: bool, destPath: string, outcome: nat -> StepOutcome): seq<ProviderCall> {
    if paths == [] then []
    else
      var n := |paths| - 1;
      MoveCalls(paths[..n], sameAlias, destPath, outcome)
        + StepCalls(sameAlias, paths[n], DestFilePath(destPath, paths[n]), outcome(n))
  }

  /** Each of the three move results grows by the step of one path. */
  lemma MoveOfPrefix(paths: seq<string>, i: nat, sameAlias: bool, destPath: string, outcome: nat -> StepOutcome)
    requires i < |paths|
    ensures MovedPaths(paths[..i + 1], sameAlias, outcome) ==
      MovedPaths(paths[..i], sameAlias, outcome) + (if StepSucceeded(sameAlias, outcome(i)) then [paths[i]] else [])
    ensures FailedPaths(paths[..i + 1], sameAlias, outcome) ==
      FailedPaths(paths[..i], sameAlias, outcome) + (if StepSucceeded(sameAlias, outcome(i)) then [] else [paths[i]])
    ensures MoveCalls(paths[..i + 1], sameAlias, destPath, outcome) ==
      MoveCalls(paths[..i], sameAlias, destPath, outcome) + StepCalls(sameAlias, paths[i], DestFilePath(destPath, paths[i]), outcome(i))
  {
    assert paths[..i + 1][..i] == paths[..i];
  }

  /** Every requested path is reported exactly once: moved and failed
      together are the request's paths. */
  lemma {:induction false} MovedAndFailedPartitionPaths(paths: seq<string>, sameAlias: bool, outcome: nat -> StepOutcome)
    ensures multiset(MovedPaths(paths, sameAlias, outcome)) + multiset(FailedPaths(paths, sameAlias, outcome)) == multiset(paths)
  {
    if paths != [] {
      var n := |paths| - 1;
      var init := paths[..n];
      MovedAndFailedPartitionPaths(init, sameAlias, outcome);
      var m, f := MovedPaths(init, sameAlias, outcome), FailedPaths(init, sameAlias, outcome);
      assert paths == init + [paths[n]];
      assert multiset(paths) == multiset(init) + multiset{paths[n]};
      if StepSucceeded(sameAlias, outcome(n)) {
        assert MovedPaths(paths, sameAlias, outcome) == m + [paths[n]];
        assert multiset(m + [paths[n]]) == multiset(m) + multiset{paths[n]};
      } else {
        assert FailedPaths(paths, sameAlias, outcome) == f + [paths[n]];
        assert multiset(f + [paths[n]]) == multiset(f) + multiset{paths[n]};
      }
    }
  }

  /** The i-th requested path is reported moved when its step succeeded
      and failed otherwise. */
  lemma {:induction false} EachPathReported(paths: seq<string>, sameAlias: bool, outcome: nat -> StepOutcome, i: nat)
    requires i < |paths|
    ensures StepSucceeded(sameAlias, outcome(i)) ==> paths[i] in MovedPaths(paths, sameAlias, outcome)
    ensures !StepSucceeded(sameAlias, outcome(i)) ==> paths[i] in FailedPaths(paths, sameAlias, outcome)
    decreases |paths|
  {
    var n := |paths| - 1;
    var init := paths[..n];
    if i < n {
      EachPathReported(init, sameAlias, outcome, i);
      assert init[i] == paths[i];
    }
  }

  /** Only paths whose step succeeded are reported moved, and only paths
      whose step failed are reported failed. */
  lemma {:induction false} ReportedPathsHaveTheirOutcome(paths: seq<string>, sameAlias: bool, outcome: nat -> StepOutcome, p: string)
    ensures p in MovedPaths(paths, sameAlias, outcome) ==>
      exists i :: 0 <= i < |paths| && paths[i] == p && StepSucceeded(sameAlias, outcome(i))
    ensures p in FailedPaths(paths, sameAlias, outcome) ==>
      exists i :: 0 <= i < |paths| && paths[i] == p && !StepSucceeded(sameAlias, outcome(i))
  {
    if paths != [] {
      var n := |paths| - 1;
      var init := paths[..n];
      ReportedPathsHaveTheirOutcome(init, sameAlias, outcome, p);
      if p in MovedPaths(init, sameAlias, outcome) {
        var i :| 0 <= i < |init| && init[i] == p && StepSucceeded(sameAlias, outcome(i));
        assert paths[i] == p;
      }
      if p in FailedPaths(init, sameAlias, outcome) {
        var i :| 0 <= i < |init| && init[i] == p && !StepSucceeded(sameAlias, outcome(i));
        assert paths[i] == p;
      }
    }
  }

  /** When every path's step succeeds, every path is moved, in request
      order, and none failed. */
  lemma {:induction false} AllSucceededAllMoved(paths: seq<string>, sameAlias: bool, outcome: nat -> StepOutcome)
    requires forall i: nat :: i < |paths| ==> StepSucceeded(sameAlias, outcome(i))
    ensures MovedPaths(paths, sameAlias, outcome) == paths
    ensures FailedPaths(paths, sameAlias, outcome) == []
  {
    if paths != [] {
      var n := |paths| - 1;
      AllSucceededAllMoved(paths[..n], sameAlias, outcome);
      assert paths == paths[..n] + [paths[n]];
    }
  }

  // ---------------------------------------------------------------------------
  // The photo-list limit

  const DefaultLimit := 50

  /** handleGetPhotos's limit: the query's integer when it parses and is
      positive, 50 otherwise. */
  function PhotoLimit(limitStr: string): (limit: int)
    ensures limit > 0
    ensures limit != DefaultLimit ==> Atoi(limitStr) == Some(limit)
    ensures limitStr == "" ==> limit == DefaultLimit
    ensures (Atoi(limitStr).None? || Atoi(limitStr).value <= 0) ==> limit == DefaultLimit
  {
    if limitStr == "" then DefaultLimit
    else match Atoi(limitStr)
      case Some(v) => if v > 0 then v else DefaultLimit
      case None => DefaultLimit
  }

  /** Any positive numeral is taken as the limit. */
  lemma PhotoLimitOfNumeral(n: nat)
    requires 0 < n <= MaxInt64
    ensures PhotoLimit(NatToString(n)) == n
  {
    AtoiOfNatToString(n);
  }

  /** A limit that is no numeral ("abc", "5a", "+") or a negative one falls
      back to the default. */
  lemma PhotoLimitOfNonNumeral(limitStr: string)
    requires AfterSign(limitStr) == [] || limitStr[0] == '-'
             || exists k :: 0 <= k < |AfterSign(limitStr)| && !IsDigit(AfterSign(limitStr)[k])
    ensures PhotoLimit(limitStr) == DefaultLimit
  {
    if AfterSign(limitStr) == [] || exists k :: 0 <= k < |AfterSign(limitStr)| && !IsDigit(AfterSign(limitStr)[k]) {
      AtoiRejectsNonNumerals(limitStr);
    }
  }

  // ---------------------------------------------------------------------------
  // The handler state

  /** The scan the handlers run over the alias list: the index of the
      first alias with the name, found by walking the list in order. */
  method ScanForName(aliases: seq<Alias>, name: string) returns (r: Option<nat>)
    ensures r.Some? <==> HasName(aliases, name)
    ensures r.Some? ==> r.value < |aliases| && aliases[r.value].name == name
    ensures r.Some? ==> forall k :: 0 <= k < r.value ==> aliases[k].name != name
  {
    var i := 0;
    while i < |aliases|
      invariant 0 <= i <= |aliases|
      invariant forall k :: 0 <= k < i ==> aliases[k].name != name
    {
      if aliases[i].name == name {
        return Some(i);
      }
      i := i + 1;
    }
    return None;
  }

  class Handler {
    /** Config.Aliases, in file order. */
    var aliases: seq<Alias>
    /** The providers by alias name. */
    var providers: map<string, ProviderConfig>

    constructor(aliases: seq<Alias>, providers: map<string, ProviderConfig>)
      ensures this.aliases == aliases && this.providers == providers
    {
      this.aliases := aliases;
      this.providers := providers;
    }

    /** handleGetPhotos before the provider call: None (404) for an unknown
        alias, otherwise the limit handed to List. */
    function GetPhotos(aliasName: string, limitStr: string): (r: Option<int>)
      reads this
      ensures r.None? <==> aliasName !in providers
      ensures r.Some? ==> r.value > 0 && r.value == PhotoLimit(limitStr)
    {
      if aliasName !in providers then None else Some(PhotoLimit(limitStr))
    }

    /** handleAddAlias. `buildOk` is whether building the provider succeeds
        and `saveOk` whether Config.Save does. A refused request changes
        nothing; an accepted one appends the alias and registers its
        provider, even when saving then fails with 500. */
    method AddAlias(req: Alias, buildOk: bool, saveOk: bool) returns (status: int)
      modifies this
      ensures AddRejection(old(aliases), req, buildOk).Some? ==>
        status == AddRejection(old(aliases), req, buildOk).value
        && aliases == old(aliases) && providers == old(providers)
      ensures AddRejection(old(aliases), req, buildOk).None? ==>
        && aliases == old(aliases) + [req]
        && providers == old(providers)[req.name := ProviderOf(req)]
        && status == (if saveOk then StatusCreated else StatusInternalError)
      ensures old(DistinctNames(aliases)) ==> DistinctNames(aliases)
    {
      if req.name == "" || req.kind == "" {
        return StatusBadRequest;
      }
      var existing := ScanForName(aliases, req.name);
      if existing.Some? {
        return StatusConflict;
      }
      if req.kind == LocalType {
        if req.path == "" || !buildOk {
          return StatusBadRequest;
        }
        providers := providers[req.name := LocalConfig(req.path)];
      } else if req.kind == S3Type {
        if req.bucket == "" || req.endpoint == "" || req.accessKey == "" || req.secretKey == "" {
          return StatusBadRequest;
        }
        var useSSL := HasPrefix(req.endpoint, "https://");
        var endpoint := TrimPrefix(TrimPrefix(req.endpoint, "https://"), "http://");
        if !buildOk {
          return StatusBadRequest;
        }
        providers := providers[req.name := S3Config(endpoint, req.accessKey, req.secretKey, useSSL, req.bucket, req.path, req.region)];
      } else {
        return StatusBadRequest;
      }
      if DistinctNames(aliases) {
        AppendKeepsNamesDistinct(aliases, req);
      }
      aliases := aliases + [req];
      if !saveOk {
        return StatusInternalError;
      }
      return StatusCreated;
    }

    /** handleUpdateAlias. The alias is renamed and its fields updated
        before the provider is rebuilt, so a failed rebuild (400) or a
        failed save (500) leaves the in-memory list updated. */
    method UpdateAlias(req: UpdateRequest, buildOk: bool, saveOk: bool) returns (status: int)
      modifies this
      ensures req.oldName == "" || req.newName == "" ==>
        status == StatusBadRequest && aliases == old(aliases) && providers == old(providers)
      ensures req.oldName != "" && req.newName != "" && req.oldName != req.newName && HasName(old(aliases), req.newName) ==>
        status == StatusConflict && aliases == old(aliases) && providers == old(providers)
      ensures req.oldName != "" && req.newName != "" && (req.oldName == req.newName || !HasName(old(aliases), req.newName))
              && !HasName(old(aliases), req.oldName) ==>
        status == StatusNotFound && aliases == old(aliases) && providers == old(providers)
      ensures req.oldName != "" && req.newName != "" && (req.oldName == req.newName || !HasName(old(aliases), req.newName))
              && HasName(old(aliases), req.oldName) ==>
        var i := FindAlias(old(aliases), req.oldName).value;
        var u := Updated(old(aliases)[i], req);
        && aliases == old(aliases)[i := u]
        && (u.kind == S3Type || u.kind == LocalType ==>
              if buildOk then
                providers == (old(providers) - {req.oldName})[req.newName := ProviderOf(u)]
                && status == (if saveOk then StatusOK else StatusInternalError)
              else
                providers == old(providers) && status == StatusBadRequest)
        && (u.kind != S3Type && u.kind != LocalType ==>
              providers == MoveKey(old(providers), req.oldName, req.newName)
              && status == (if saveOk then StatusOK else StatusInternalError))
      ensures old(DistinctNames(aliases)) ==> DistinctNames(aliases)
    {
      if req.oldName == "" || req.newName == "" {
        return StatusBadRequest;
      }
      if req.oldName != req.newName {
        var clash := ScanForName(aliases, req.newName);
        if clash.Some? {
          return StatusConflict;
        }
      }
      var found := ScanForName(aliases, req.oldName);
      if found.None? {
        return StatusNotFound;
      }
      var aliasIndex := found.value;
      assert FindAlias(aliases, req.oldName) == Some(aliasIndex);
      var oldAlias := aliases[aliasIndex];
      var updated := Updated(oldAlias, req);
      if DistinctNames(aliases) {
        RenameKeepsNamesDistinct(aliases, aliasIndex, updated);
      }
      aliases := aliases[aliasIndex := updated];
      var failed := RebuildProvider(req.oldName, req.newName, updated, buildOk);
      if failed {
        return StatusBadRequest;
      }
      if !saveOk {
        return StatusInternalError;
      }
      return StatusOK;
    }

    /** The provider half of handleUpdateAlias: a local or S3 alias gets a
        provider rebuilt from its updated fields under its new name (nothing
        changes when the build fails); for an alias of any other type the
        existing provider moves to the new name. */
    method RebuildProvider(oldName: string, newName: string, u: Alias, buildOk: bool) returns (failed: bool)
      modifies this
      ensures aliases == old(aliases)
      ensures u.kind == S3Type || u.kind == LocalType ==>
        && failed == !buildOk
        && providers == (if buildOk then (old(providers) - {oldName})[newName := ProviderOf(u)] else old(providers))
      ensures u.kind != S3Type && u.kind != LocalType ==>
        !failed && providers == MoveKey(old(providers), oldName, newName)
    {
      if u.kind == S3Type {
        var useSSL := HasPrefix(u.endpoint, "https://");
        var endpoint := TrimPrefix(TrimPrefix(u.endpoint, "https://"), "http://");
        if !buildOk {
          return true;
        }
        providers := (providers - {oldName})[newName :=
          S3Config(endpoint, u.accessKey, u.secretKey, useSSL, u.bucket, u.path, u.region)];
      } else if u.kind == LocalType {
        if !buildOk {
          return true;
        }
        providers := (providers - {oldName})[newName := LocalConfig(u.path)];
      } else {
        if oldName in providers {
          var p := providers[oldName];
          providers := providers[newName := p];
          providers := providers - {oldName};
        }
      }
      return false;
    }

    /** handleDeleteAlias: removes every alias with the name, keeping the
        others in order, and drops its provider. */
    method DeleteAlias(name: string, saveOk: bool) returns (status: int)
      modifies this
      ensures name == "" ==> status == StatusBadRequest && aliases == old(aliases) && providers == old(providers)
      ensures name != "" && !HasName(old(aliases), name) ==>
        status == StatusNotFound && aliases == old(aliases) && providers == old(providers)
      ensures name != "" && HasName(old(aliases), name) ==>
        && aliases == Without(old(aliases), name)
        && providers == old(providers) - {name}
        && status == (if saveOk then StatusOK else StatusInternalError)
      ensures old(DistinctNames(aliases)) ==> DistinctNames(aliases)
    {
      if name == "" {
        return StatusBadRequest;
      }
      var newAliases: seq<Alias> := [];
      var found := false;
      var i := 0;
      while i < |aliases|
        invariant 0 <= i <= |aliases|
        invariant newAliases == Without(aliases[..i], name)
        invariant found <==> HasName(aliases[..i], name)
      {
        assert aliases[..i + 1][..i] == aliases[..i];
        if aliases[i].name == name {
          found := true;
          i := i + 1;
          continue;
        }
        assert HasName(aliases[..i + 1], name) ==> HasName(aliases[..i], name) by {
          if HasName(aliases[..i + 1], name) {
            var k :| 0 <= k < i + 1 && aliases[..i + 1][k].name == name;
            assert aliases[..i][k].name == name;
          }
        }
        newAliases := newAliases + [aliases[i]];
        i := i + 1;
      }
      assert aliases[..i] == aliases;
      if !found {
        return StatusNotFound;
      }
      if DistinctNames(aliases) {
        WithoutKeepsNamesDistinct(aliases, name);
      }
      aliases := newAliases;
      providers := providers - {name};
      if !saveOk {
        return StatusInternalError;
      }
      return StatusOK;
    }

    /** The loop body of handleMovePhotos for one path: Move inside one
        alias; read, upload and delete across aliases. Returns whether the
        path counts as moved and the provider calls made. */
    method MoveOne(same: bool, path: string, destPath: string, o: StepOutcome)
      returns (ok: bool, step: seq<ProviderCall>)
      ensures ok == StepSucceeded(same, o)
      ensures step == StepCalls(same, path, DestFilePath(destPath, path), o)
    {
      var filename := Base(path);
      var destFilePath := filename;
      if destPath != "" {
        destFilePath := Join(destPath, filename);
      }
      assert destFilePath == DestFilePath(destPath, path);
      if same {
        step := [MoveCall(path, destFilePath)];
        ok := o.moveOk;
      } else {
        step := [ReadCall(path)];
        if !o.readOk {
          ok := false;
        } else {
          step := step + [UploadCall(destFilePath)];
          assert step == [ReadCall(path), UploadCall(destFilePath)];
          if !o.uploadOk {
            ok := false;
          } else {
            // A failed delete is only logged: the path still counts as moved.
            step := step + [DeleteCall(path)];
            assert step == [ReadCall(path), UploadCall(destFilePath), DeleteCall(path)];
            ok := true;
          }
        }
      }
    }

    /** handleMovePhotos: validates the request, then moves path by path
        and reports which paths moved and which failed. `outcome(i)` is how
        the provider calls for the i-th path end. */
    method MovePhotos(req: MoveRequest, outcome: nat -> StepOutcome)
      returns (status: int, moved: seq<string>, failed: seq<string>, calls: seq<ProviderCall>)
      ensures req.alias == "" || req.paths == [] || req.destAlias == "" ==>
        status == StatusBadRequest && moved == [] && failed == [] && calls == []
      ensures req.alias != "" && req.paths != [] && req.destAlias != ""
              && (req.alias !in providers || req.destAlias !in providers) ==>
        status == StatusNotFound && moved == [] && failed == [] && calls == []
      ensures req.alias != "" && req.paths != [] && req.destAlias != ""
              && req.alias in providers && req.destAlias in providers ==>
        var same := req.alias == req.destAlias;
        && status == StatusOK
        && moved == MovedPaths(req.paths, same, outcome)
        && failed == FailedPaths(req.paths, same, outcome)
        && calls == MoveCalls(req.paths, same, req.destPath, outcome)
    {
      if req.alias == "" || |req.paths| == 0 || req.destAlias == "" {
        return StatusBadRequest, [], [], [];
      }
      if req.alias !in providers {
        return StatusNotFound, [], [], [];
      }
      if req.destAlias !in providers {
        return StatusNotFound, [], [], [];
      }
      var same := req.alias == req.destAlias;
      moved, failed, calls := [], [], [];
      var i := 0;
      while i < |req.paths|
        invariant 0 <= i <= |req.paths|
        invariant moved == MovedPaths(req.paths[..i], same, outcome)
        invariant failed == FailedPaths(req.paths[..i], same, outcome)
        invariant calls == MoveCalls(req.paths[..i], same, req.destPath, outcome)
      {
        var path := req.paths[i];
        MoveOfPrefix(req.paths, i, same, req.destPath, outcome);
        var ok, step := MoveOne(same, path, req.destPath, outcome(i));
        calls := calls + step;
        if ok {
          moved := moved + [path];
        } else {
          failed := failed + [path];
        }
        i := i + 1;
      }
      assert req.paths[..i] == req.paths;
      return StatusOK, moved, failed, calls;
    }
  }
}
