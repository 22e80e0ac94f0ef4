/**
 * CachingScriptProcessor: a decorator over the script processor that installs
 * addins. Each addin, except the Cake package itself, is installed by asking the
 * inner processor for that one addin, once; the answer (a list of assembly
 * paths, possibly null) is remembered in a dictionary keyed by package reference,
 * and the answers are concatenated in order.
 */
module CachingScriptProcessor {
  import opened Wrappers

  type FilePath = string
  type DirectoryPath = string

  /** What PackageReferenceComparer compares: two references with the same key are the same dictionary entry. */
  type PackageKey = string

  /** A package directive such as `nuget:?package=Cake.Foo`; `package` is its Package parameter. */
  datatype PackageReference = PackageReference(originalString: string, package: string)

  /** One call of the inner processor's InstallAddins. */
  datatype Request = Request(addins: seq<PackageReference>, installPath: DirectoryPath)

  /**
   * What the decorator and its inner processor have done: the cache, the inner
   * processor's calls in order, and the paths collected by the current call.
   */
  datatype State = State(cache: map<PackageKey, Option<seq<FilePath>>>, calls: seq<Request>, paths: seq<FilePath>)

  /** `addin.Package.Equals("Cake")`: ordinal, case-sensitive. */
  predicate IsCake(addin: PackageReference)
  {
    addin.package == "Cake"
  }

  /** What one answer adds to the result: its paths, nothing for a null list. */
  function Contribution(result: Option<seq<FilePath>>): seq<FilePath>
  {
    match result
    case None => []
    case Some(paths) => paths
  }

  // ---------------------------------------------------------------------------
  // InstallAddins, as a specification function
  // ---------------------------------------------------------------------------

  /**
   * One turn of the `foreach`: the Cake package is skipped; a cached addin
   * reuses its entry; any other is forwarded on its own and its answer, null
   * included, is added to the cache.
   */
  function Step(keyOf: PackageReference -> PackageKey, respond: (Request, seq<Request>) -> Option<seq<FilePath>>,
                installPath: DirectoryPath, st: State, addin: PackageReference): State
  {
    if IsCake(addin) then st
    else
      var key := keyOf(addin);
      if key in st.cache then st.(paths := st.paths + Contribution(st.cache[key]))
      else
        var request := Request([addin], installPath);
        var result := respond(request, st.calls);
        State(st.cache[key := result], st.calls + [request], st.paths + Contribution(result))
  }

  /** The whole `foreach`, addin after addin. */
  function Install(keyOf: PackageReference -> PackageKey, respond: (Request, seq<Request>) -> Option<seq<FilePath>>,
                   installPath: DirectoryPath, st: State, addins: seq<PackageReference>): State
    decreases |addins|
  {
    if |addins| == 0 then st
    else Step(keyOf, respond, installPath, Install(keyOf, respond, installPath, st, addins[..|addins| - 1]), addins[|addins| - 1])
  }

  /** The addin a forwarded request asked for. */
  function Forwarded(request: Request): PackageReference
    requires |request.addins| == 1
  {
    request.addins[0]
  }

  /** Each call from `start` on asked for exactly one addin, never the Cake package. */
  ghost predicate OneAddinEach(start: nat, calls: seq<Request>)
  {
    start <= |calls| && forall i :: start <= i < |calls| ==> |calls[i].addins| == 1 && !IsCake(calls[i].addins[0])
  }

  /** The cache holds, under each call's key, that call's answer. */
  ghost predicate AnswersCached(keyOf: PackageReference -> PackageKey, respond: (Request, seq<Request>) -> Option<seq<FilePath>>,
                                start: nat, cache: map<PackageKey, Option<seq<FilePath>>>, calls: seq<Request>)
    requires OneAddinEach(start, calls)
  {
    forall i :: start <= i < |calls| ==>
      keyOf(Forwarded(calls[i])) in cache && cache[keyOf(Forwarded(calls[i]))] == respond(calls[i], calls[..i])
  }

  /** No two calls asked for the same key. */
  ghost predicate DistinctKeys(keyOf: PackageReference -> PackageKey, start: nat, calls: seq<Request>)
    requires OneAddinEach(start, calls)
  {
    forall i, j :: start <= i < j < |calls| ==> keyOf(Forwarded(calls[i])) != keyOf(Forwarded(calls[j]))
  }

  /** Every key in the cache was asked for by one of the calls. */
  ghost predicate KeysForwarded(keyOf: PackageReference -> PackageKey, start: nat,
                                cache: map<PackageKey, Option<seq<FilePath>>>, calls: seq<Request>)
    requires OneAddinEach(start, calls)
  {
    forall key :: key in cache ==> exists i :: start <= i < |calls| && keyOf(Forwarded(calls[i])) == key
  }

  /**
   * The decorator's invariant over the inner processor's calls from `start` on:
   * each call asked for exactly one addin, never the Cake package; no two calls
   * asked for the same key; the cache holds, for each call's key, that call's
   * answer; and every key in the cache was asked for by one of these calls.
   */
  ghost predicate Memoizes(keyOf: PackageReference -> PackageKey, respond: (Request, seq<Request>) -> Option<seq<FilePath>>,
                           start: nat, cache: map<PackageKey, Option<seq<FilePath>>>, calls: seq<Request>)
  {
    && OneAddinEach(start, calls)
    && AnswersCached(keyOf, respond, start, cache, calls)
    && DistinctKeys(keyOf, start, calls)
    && KeysForwarded(keyOf, start, cache, calls)
  }

  /** The addins with every Cake package dropped. */
  function WithoutCake(addins: seq<PackageReference>): (r: seq<PackageReference>)
    ensures |r| <= |addins|
    ensures forall k :: 0 <= k < |r| ==> !IsCake(r[k])
    decreases |addins|
  {
    if |addins| == 0 then []
    else
      var rest := WithoutCake(addins[..|addins| - 1]);
      if IsCake(addins[|addins| - 1]) then rest else rest + [addins[|addins| - 1]]
  }

  /** Every addin other than the Cake package has an entry in `cache`. */
  ghost predicate AllCached(keyOf: PackageReference -> PackageKey, cache: map<PackageKey, Option<seq<FilePath>>>,
                            addins: seq<PackageReference>)
  {
    forall k :: 0 <= k < |addins| && !IsCake(addins[k]) ==> keyOf(addins[k]) in cache
  }

  /** Independently of the order of calls: the entries of the addins, in the addins' order, null entries adding nothing. */
  function Collected(keyOf: PackageReference -> PackageKey, cache: map<PackageKey, Option<seq<FilePath>>>,
                     addins: seq<PackageReference>): seq<FilePath>
    requires AllCached(keyOf, cache, addins)
    decreases |addins|
  {
    if |addins| == 0 then []
    else
      var last := addins[|addins| - 1];
      Collected(keyOf, cache, addins[..|addins| - 1]) + (if IsCake(last) then [] else Contribution(cache[keyOf(last)]))
  }

  // ---------------------------------------------------------------------------
  // Properties of InstallAddins
  // ---------------------------------------------------------------------------

  /** A forwarded request appended to the calls: the earlier calls and what each saw before it are as they were. */
  lemma AppendedCalls(start: nat, calls: seq<Request>, request: Request)
    requires OneAddinEach(start, calls) && |request.addins| == 1 && !IsCake(request.addins[0])
    ensures OneAddinEach(start, calls + [request])
    ensures forall i :: 0 <= i < |calls| ==> (calls + [request])[i] == calls[i] && (calls + [request])[..i] == calls[..i]
    ensures (calls + [request])[..|calls|] == calls
  {
    forall i | 0 <= i < |calls|
      ensures (calls + [request])[..i] == calls[..i]
    {
      assert (calls + [request])[..i] == (calls + [request])[..|calls|][..i];
    }
  }

  /** A miss adds the answer under a new key: the cached answers stay right. */
  lemma MissAnswersCached(keyOf: PackageReference -> PackageKey, respond: (Request, seq<Request>) -> Option<seq<FilePath>>,
                          start: nat, cache: map<PackageKey, Option<seq<FilePath>>>, calls: seq<Request>, request: Request)
    requires Memoizes(keyOf, respond, start, cache, calls)
    requires |request.addins| == 1 && !IsCake(request.addins[0]) && keyOf(request.addins[0]) !in cache
    requires OneAddinEach(start, calls + [request])
    requires forall i :: 0 <= i < |calls| ==> (calls + [request])[i] == calls[i] && (calls + [request])[..i] == calls[..i]
    requires (calls + [request])[..|calls|] == calls
    ensures AnswersCached(keyOf, respond, start, cache[keyOf(request.addins[0]) := respond(request, calls)], calls + [request])
  {
    var key := keyOf(request.addins[0]);
    var cache', calls' := cache[key := respond(request, calls)], calls + [request];
    forall i | start <= i < |calls'|
      ensures keyOf(Forwarded(calls'[i])) in cache' && cache'[keyOf(Forwarded(calls'[i]))] == respond(calls'[i], calls'[..i])
    {
      if i < |calls| {
        assert keyOf(Forwarded(calls[i])) in cache;
      }
    }
  }

  /** A miss asks for a key no earlier call asked for. */
  lemma MissDistinctKeys(keyOf: PackageReference -> PackageKey, respond: (Request, seq<Request>) -> Option<seq<FilePath>>,
                         start: nat, cache: map<PackageKey, Option<seq<FilePath>>>, calls: seq<Request>, request: Request)
    requires Memoizes(keyOf, respond, start, cache, calls)
    requires |request.addins| == 1 && !IsCake(request.addins[0]) && keyOf(request.addins[0]) !in cache
    requires OneAddinEach(start, calls + [request])
    requires forall i :: 0 <= i < |calls| ==> (calls + [request])[i] == calls[i]
    ensures DistinctKeys(keyOf, start, calls + [request])
  {
    var calls' := calls + [request];
    forall i, j | start <= i < j < |calls'|
      ensures keyOf(Forwarded(calls'[i])) != keyOf(Forwarded(calls'[j]))
    {
      assert keyOf(Forwarded(calls[i])) in cache;
    }
  }

  /** A miss adds one key, the one it asked for. */
  lemma MissKeysForwarded(keyOf: PackageReference -> PackageKey, respond: (Request, seq<Request>) -> Option<seq<FilePath>>,
                          start: nat, cache: map<PackageKey, Option<seq<FilePath>>>, calls: seq<Request>, request: Request)
    requires Memoizes(keyOf, respond, start, cache, calls)
    requires |request.addins| == 1 && !IsCake(request.addins[0])
    requires OneAddinEach(start, calls + [request])
    requires forall i :: 0 <= i < |calls| ==> (calls + [request])[i] == calls[i]
    ensures KeysForwarded(keyOf, start, cache[keyOf(request.addins[0]) := respond(request, calls)], calls + [request])
  {
    var key := keyOf(request.addins[0]);
    var cache', calls' := cache[key := respond(request, calls)], calls + [request];
    forall k | k in cache'
      ensures exists i :: start <= i < |calls'| && keyOf(Forwarded(calls'[i])) == k
    {
      if k == key {
        assert keyOf(Forwarded(calls'[|calls|])) == k;
      } else {
        var i :| start <= i < |calls| && keyOf(Forwarded(calls[i])) == k;
        assert calls'[i] == calls[i];
      }
    }
  }

  /** One turn keeps the invariant: a forwarded addin's key was not cached, so it is new. */
  lemma StepMemoizes(keyOf: PackageReference -> PackageKey, respond: (Request, seq<Request>) -> Option<seq<FilePath>>,
                     installPath: DirectoryPath, start: nat, st: State, addin: PackageReference)
    requires Memoizes(keyOf, respond, start, st.cache, st.calls)
    ensures var r := Step(keyOf, respond, installPath, st, addin);
      Memoizes(keyOf, respond, start, r.cache, r.calls)
  {
    if !IsCake(addin) && keyOf(addin) !in st.cache {
      var request := Request([addin], installPath);
      AppendedCalls(start, st.calls, request);
      MissAnswersCached(keyOf, respond, start, st.cache, st.calls, request);
      MissDistinctKeys(keyOf, respond, start, st.cache, st.calls, request);
      MissKeysForwarded(keyOf, respond, start, st.cache, st.calls, request);
    }
  }

  /**
   * InstallAddins keeps the invariant: across calls and within one call, each
   * key is forwarded at most once, alone, and never for the Cake package.
   */
  lemma {:induction false} InstallMemoizes(keyOf: PackageReference -> PackageKey,
                                           respond: (Request, seq<Request>) -> Option<seq<FilePath>>,
                                           installPath: DirectoryPath, start: nat, st: State, addins: seq<PackageReference>)
    requires Memoizes(keyOf, respond, start, st.cache, st.calls)
    ensures var r := Install(keyOf, respond, installPath, st, addins);
      Memoizes(keyOf, respond, start, r.cache, r.calls)
    decreases |addins|
  {
    if |addins| > 0 {
      var prefix := addins[..|addins| - 1];
      InstallMemoizes(keyOf, respond, installPath, start, st, prefix);
      StepMemoizes(keyOf, respond, installPath, start, Install(keyOf, respond, installPath, st, prefix), addins[|addins| - 1]);
    }
  }

  /** The cache only grows: no entry is replaced or removed; calls and paths are only appended to. */
  lemma {:induction false} InstallKeepsEntries(keyOf: PackageReference -> PackageKey,
                                               respond: (Request, seq<Request>) -> Option<seq<FilePath>>,
                                               installPath: DirectoryPath, st: State, addins: seq<PackageReference>)
    ensures var r := Install(keyOf, respond, installPath, st, addins);
      && (forall key :: key in st.cache ==> key in r.cache && r.cache[key] == st.cache[key])
      && st.calls <= r.calls && st.paths <= r.paths
    decreases |addins|
  {
    if |addins| > 0 {
      InstallKeepsEntries(keyOf, respond, installPath, st, addins[..|addins| - 1]);
    }
  }

  /** After InstallAddins every addin other than the Cake package is cached, a null answer included. */
  lemma {:induction false} InstallCachesEvery(keyOf: PackageReference -> PackageKey,
                                              respond: (Request, seq<Request>) -> Option<seq<FilePath>>,
                                              installPath: DirectoryPath, st: State, addins: seq<PackageReference>)
    ensures AllCached(keyOf, Install(keyOf, respond, installPath, st, addins).cache, addins)
    decreases |addins|
  {
    if |addins| > 0 {
      var prefix := addins[..|addins| - 1];
      var before := Install(keyOf, respond, installPath, st, prefix);
      InstallCachesEvery(keyOf, respond, installPath, st, prefix);
      InstallKeepsEntries(keyOf, respond, installPath, before, [addins[|addins| - 1]]);
      assert Install(keyOf, respond, installPath, before, [addins[|addins| - 1]])
          == Install(keyOf, respond, installPath, st, addins) by {
        assert [addins[|addins| - 1]][..0] == [];
      }
      forall k | 0 <= k < |addins| - 1
        ensures addins[k] == prefix[k]
      {
      }
    }
  }

  /** Entries that do not change give the same collected paths. */
  lemma {:induction false} CollectedStable(keyOf: PackageReference -> PackageKey,
                                           small: map<PackageKey, Option<seq<FilePath>>>,
                                           large: map<PackageKey, Option<seq<FilePath>>>, addins: seq<PackageReference>)
    requires AllCached(keyOf, small, addins)
    requires forall key :: key in small ==> key in large && large[key] == small[key]
    ensures AllCached(keyOf, large, addins) && Collected(keyOf, large, addins) == Collected(keyOf, small, addins)
    decreases |addins|
  {
    if |addins| > 0 {
      CollectedStable(keyOf, small, large, addins[..|addins| - 1]);
    }
  }

  /**
   * The returned list is the in-order concatenation of the addins' cached
   * answers: the Cake package and null answers add nothing.
   */
  lemma {:induction false} InstallCollects(keyOf: PackageReference -> PackageKey,
                                           respond: (Request, seq<Request>) -> Option<seq<FilePath>>,
                                           installPath: DirectoryPath, st: State, addins: seq<PackageReference>)
    ensures var r := Install(keyOf, respond, installPath, st, addins);
      AllCached(keyOf, r.cache, addins) && r.paths == st.paths + Collected(keyOf, r.cache, addins)
    decreases |addins|
  {
    InstallCachesEvery(keyOf, respond, installPath, st, addins);
    if |addins| > 0 {
      var prefix, last := addins[..|addins| - 1], addins[|addins| - 1];
      var before := Install(keyOf, respond, installPath, st, prefix);
      var r := Install(keyOf, respond, installPath, st, addins);
      InstallCollects(keyOf, respond, installPath, st, prefix);
      InstallKeepsEntries(keyOf, respond, installPath, before, [last]);
      assert Install(keyOf, respond, installPath, before, [last]) == r by {
        assert [last][..0] == [];
      }
      CollectedStable(keyOf, before.cache, r.cache, prefix);
    }
  }

  /** When every addin is already cached, InstallAddins forwards nothing and leaves the cache as it is. */
  lemma {:induction false} CachedForwardsNothing(keyOf: PackageReference -> PackageKey,
                                                 respond: (Request, seq<Request>) -> Option<seq<FilePath>>,
                                                 installPath: DirectoryPath, st: State, addins: seq<PackageReference>)
    requires AllCached(keyOf, st.cache, addins)
    ensures var r := Install(keyOf, respond, installPath, st, addins);
      r.cache == st.cache && r.calls == st.calls
    decreases |addins|
  {
    if |addins| > 0 {
      CachedForwardsNothing(keyOf, respond, installPath, st, addins[..|addins| - 1]);
    }
  }

  /** Installing the same addins again forwards nothing: a null answer is not retried. */
  lemma SecondInstallForwardsNothing(keyOf: PackageReference -> PackageKey,
                                     respond: (Request, seq<Request>) -> Option<seq<FilePath>>,
                                     installPath: DirectoryPath, st: State, addins: seq<PackageReference>)
    ensures var first := Install(keyOf, respond, installPath, st, addins);
      var second := Install(keyOf, respond, installPath, first.(paths := []), addins);
      second.cache == first.cache && second.calls == first.calls
  {
    var first := Install(keyOf, respond, installPath, st, addins);
    InstallCachesEvery(keyOf, respond, installPath, st, addins);
    CachedForwardsNothing(keyOf, respond, installPath, first.(paths := []), addins);
  }

  /** The Cake package changes nothing: installing the addins is installing them without it. */
  lemma {:induction false} InstallSkipsCake(keyOf: PackageReference -> PackageKey,
                                            respond: (Request, seq<Request>) -> Option<seq<FilePath>>,
                                            installPath: DirectoryPath, st: State, addins: seq<PackageReference>)
    ensures Install(keyOf, respond, installPath, st, addins) == Install(keyOf, respond, installPath, st, WithoutCake(addins))
    decreases |addins|
  {
    if |addins| > 0 {
      var prefix, last := addins[..|addins| - 1], addins[|addins| - 1];
      var rest := WithoutCake(prefix);
      InstallSkipsCake(keyOf, respond, installPath, st, prefix);
      if !IsCake(last) {
        assert (rest + [last])[..|rest|] == rest;
      }
    }
  }

  // ---------------------------------------------------------------------------
  // The inner processor and the decorator
  // ---------------------------------------------------------------------------

  /**
   * The decorated IScriptProcessor, as far as the decorator sees it: it answers
   * each request from the request and what it was asked before (installing a
   * package has effects on disk), and records the request.
   */
  class ScriptProcessor {
    const respond: (Request, seq<Request>) -> Option<seq<FilePath>>
    var calls: seq<Request>

    constructor (respond: (Request, seq<Request>) -> Option<seq<FilePath>>)
      ensures forall request, before :: this.respond(request, before) == respond(request, before)
      ensures calls == []
    {
      this.respond := respond;
      calls := [];
    }

    method InstallAddins(addins: seq<PackageReference>, installPath: DirectoryPath) returns (result: Option<seq<FilePath>>)
      modifies this
      ensures calls == old(calls) + [Request(addins, installPath)]
      ensures result == respond(Request(addins, installPath), old(calls))
    {
      result := respond(Request(addins, installPath), calls);
      calls := calls + [Request(addins, installPath)];
    }
  }

  class CachingScriptProcessor {
    const processor: ScriptProcessor
    /** PackageReferenceComparer, as the key it compares. */
    const keyOf: PackageReference -> PackageKey
    var cache: map<PackageKey, Option<seq<FilePath>>>
    /** How many calls the inner processor had when this decorator was built. */
    ghost const start: nat

    ghost predicate Valid()
      reads this, processor
    {
      Memoizes(keyOf, processor.respond, start, cache, processor.calls)
    }

    constructor (processor: ScriptProcessor, keyOf: PackageReference -> PackageKey)
      ensures this.processor == processor && cache == map[] && start == |processor.calls| && Valid()
      ensures forall addin :: this.keyOf(addin) == keyOf(addin)
    {
      this.processor := processor;
      this.keyOf := keyOf;
      cache := map[];
      start := |processor.calls|;
    }

    /** The constructor's null check: a null inner processor is ArgumentNullException("processor"). */
    static method Create(processor: ScriptProcessor?, keyOf: PackageReference -> PackageKey)
      returns (r: Result<CachingScriptProcessor, string>)
      ensures processor == null ==> r == Err("processor")
      ensures processor != null ==>
        && r.Ok? && fresh(r.value) && r.value.processor == processor && r.value.cache == map[] && r.value.Valid()
    {
      if processor == null {
        return Err("processor");
      }
      var decorator := new CachingScriptProcessor(processor, keyOf);
      r := Ok(decorator);
    }

    method InstallAddins(addins: seq<PackageReference>, installPath: DirectoryPath) returns (filePaths: seq<FilePath>)
      requires Valid()
      modifies this, processor
      ensures Valid()
      ensures State(cache, processor.calls, filePaths)
        == Install(keyOf, processor.respond, installPath, State(old(cache), old(processor.calls), []), addins)
    {
      ghost var st := State(cache, processor.calls, []);
      filePaths := [];
      var i := 0;
      while i < |addins|
        invariant 0 <= i <= |addins|
        invariant State(cache, processor.calls, filePaths) == Install(keyOf, processor.respond, installPath, st, addins[..i])
      {
        var addin := addins[i];
        assert addins[..i + 1][..i] == addins[..i];
        if addin.package == "Cake" {
          i := i + 1;
          continue;
        }
        var result: Option<seq<FilePath>>;
        if keyOf(addin) in cache {
          result := cache[keyOf(addin)];
        } else {
          result := processor.InstallAddins([addin], installPath);
          cache := cache[keyOf(addin) := result];
        }
        if result.Some? {
          filePaths := filePaths + result.value;
        }
        i := i + 1;
      }
      assert addins[..i] == addins;
      InstallMemoizes(keyOf, processor.respond, installPath, start, st, addins);
    }

    /** Nothing to do: modules are not installed here. */
    method InstallModules(modules: seq<PackageReference>, installPath: DirectoryPath)
      ensures cache == old(cache) && processor.calls == old(processor.calls)
    {
    }

    /** Nothing to do: tools are not installed here. */
    method InstallTools(tools: seq<PackageReference>, installPath: DirectoryPath)
      ensures cache == old(cache) && processor.calls == old(processor.calls)
    {
    }
  }
}
