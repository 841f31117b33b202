/** The server's cache of current flags and the snapshot endpoint on top of it. */
module FeatureCache {
  import opened Model

  /** Writing a list of flags into a map by short key, the last one winning. The cache does
      this with the flags it is given, the SDK with the flags of a snapshot response. */
  function Merge(into: map<string, Flag>, flags: seq<Flag>): map<string, Flag> {
    if flags == [] then into
    else
      var f := flags[|flags| - 1];
      Merge(into, flags[..|flags| - 1])[f.key := f]
  }

  function LastFor(flags: seq<Flag>, key: string): Option<Flag> {
    if flags == [] then None
    else if flags[|flags| - 1].key == key then Some(flags[|flags| - 1])
    else LastFor(flags[..|flags| - 1], key)
  }

  lemma {:induction false} MergeIsLast(into: map<string, Flag>, flags: seq<Flag>, key: string)
    ensures key in Merge(into, flags) <==> key in into || LastFor(flags, key).Some?
    ensures key in Merge(into, flags) ==>
              Merge(into, flags)[key] == match LastFor(flags, key) { case Some(f) => f case None => into[key] }
  {
    if flags != [] {
      MergeIsLast(into, flags[..|flags| - 1], key);
    }
  }

  lemma {:induction false} LastForSound(flags: seq<Flag>, key: string)
    ensures match LastFor(flags, key)
            case Some(f) => f in flags && f.key == key
            case None => forall f | f in flags :: f.key != key
  {
    if flags != [] {
      LastForSound(flags[..|flags| - 1], key);
    }
  }

  /** The cache never files a flag under another flag's key. */
  ghost predicate KeyedByOwnKey(data: map<string, Flag>) {
    forall key | key in data :: data[key].key == key
  }

  class Cache {
    var data: map<string, Flag>
    var revision: int

    constructor ()
      ensures data == map[] && revision == 0
    {
      data := map[];
      revision := 0;
    }

    method Update(f: Flag)
      modifies this
      ensures data == old(data)[f.key := f]
      ensures revision == Max(old(revision), f.revision)
      ensures old(KeyedByOwnKey(data)) ==> KeyedByOwnKey(data)
    {
      data := data[f.key := f];
      if f.revision > revision {
        revision := f.revision;
      }
    }

    method Delete(key: string, rev: int)
      modifies this
      ensures data == old(data) - {key}
      ensures revision == Max(old(revision), rev)
      ensures old(KeyedByOwnKey(data)) ==> KeyedByOwnKey(data)
    {
      data := data - {key};
      if rev > revision {
        revision := rev;
      }
    }

    /** The flags come in map order, which Go leaves open: any order rebuilds the data. */
    method GetSnapshot() returns (flags: seq<Flag>, rev: int)
      requires KeyedByOwnKey(data)
      ensures Merge(map[], flags) == data && |flags| == |data|
      ensures rev == revision
    {
      flags := [];
      var todo := data.Keys;
      ghost var done: map<string, Flag> := map[];
      while todo != {}
        invariant todo <= data.Keys
        invariant done == map key | key in data && key !in todo :: data[key]
        invariant Merge(map[], flags) == done
        invariant |flags| + |todo| == |data|
      {
        var key :| key in todo;
        var flag := data[key];
        assert (flags + [flag])[..|flags|] == flags;
        flags := flags + [flag];
        todo := todo - {key};
        done := done[key := flag];
      }
      assert done == data;
      rev := revision;
    }
  }

  // ----- the snapshot endpoint -----

  /** The filter of the endpoint: an empty environment or namespace list asks for all. */
  predicate Shows(scope: Scope, f: Flag) {
    && (scope.env == "" || f.env == scope.env)
    && (scope.namespaces == {} || f.namespace in scope.namespaces)
  }

  function Visible(flags: seq<Flag>, scope: Scope): seq<Flag> {
    if flags == [] then []
    else
      var rest, f := Visible(flags[..|flags| - 1], scope), flags[|flags| - 1];
      if Shows(scope, f) then rest + [f] else rest
  }

  /** An environment without namespaces asks for all of the environment, namespaces without an environment
      for theirs everywhere, both for what is in both, and neither for everything. */
  lemma {:induction false} FiltersAreOneSided(flags: seq<Flag>, scope: Scope, f: Flag)
    ensures scope.env == "" && scope.namespaces == {} ==> Visible(flags, scope) == flags
    ensures scope.env != "" && scope.namespaces == {} ==> (f in Visible(flags, scope) <==> f in flags && f.env == scope.env)
    ensures scope.env == "" && scope.namespaces != {} ==>
              (f in Visible(flags, scope) <==> f in flags && f.namespace in scope.namespaces)
    ensures scope.env != "" && scope.namespaces != {} ==>
              (f in Visible(flags, scope) <==> f in flags && f.env == scope.env && f.namespace in scope.namespaces)
  {
    if flags != [] {
      FiltersAreOneSided(flags[..|flags| - 1], scope, f);
      assert flags == flags[..|flags| - 1] + [flags[|flags| - 1]];
    }
  }

  method FetchAll(features: seq<Flag>, scope: Scope) returns (filtered: seq<Flag>)
    ensures filtered == Visible(features, scope)
  {
    if scope.env == "" && scope.namespaces == {} {
      VisibleEverything(features, scope);
      return features;
    }
    filtered := [];
    for i := 0 to |features|
      invariant filtered == Visible(features[..i], scope)
    {
      var f := features[i];
      assert features[..i + 1][..i] == features[..i];
      if scope.env != "" && f.env != scope.env {
        continue;
      }
      if scope.namespaces != {} && f.namespace !in scope.namespaces {
        continue;
      }
      filtered := filtered + [f];
    }
    assert features[..|features|] == features;
  }

  lemma {:induction false} VisibleEverything(flags: seq<Flag>, scope: Scope)
    requires scope.env == "" && scope.namespaces == {}
    ensures Visible(flags, scope) == flags
  {
    if flags != [] {
      VisibleEverything(flags[..|flags| - 1], scope);
      assert flags == flags[..|flags| - 1] + [flags[|flags| - 1]];
    }
  }

  /** The part of the cache an environment and its namespaces get to see. */
  function VisibleData(data: map<string, Flag>, scope: Scope): map<string, Flag> {
    map key | key in data && Shows(scope, data[key]) :: data[key]
  }

  lemma {:induction false} LastVisible(flags: seq<Flag>, scope: Scope, key: string)
    ensures (LastFor(flags, key).Some? && Shows(scope, LastFor(flags, key).value)) ==>
              LastFor(Visible(flags, scope), key) == LastFor(flags, key)
    ensures LastFor(Visible(flags, scope), key).Some? ==>
              exists f :: f in flags && f.key == key && Shows(scope, f)
  {
    if flags != [] {
      var rest, f := flags[..|flags| - 1], flags[|flags| - 1];
      LastVisible(rest, scope, key);
      assert Shows(scope, f) ==> Visible(flags, scope)[..|Visible(rest, scope)|] == Visible(rest, scope);
    }
  }

  /** No flag of another environment or namespace has been written over a visible one. */
  ghost predicate NotShadowed(flags: seq<Flag>, scope: Scope) {
    forall f | f in flags && Shows(scope, f) ::
      LastFor(flags, f.key).Some? && Shows(scope, LastFor(flags, f.key).value)
  }

  /** The cache is keyed by the short key alone, so a flag of another environment or
      namespace hides the caller's own flag of the same name. The snapshot is the caller's
      own history exactly when that has not happened. */
  lemma {:induction false} SnapshotIsolation(flags: seq<Flag>, scope: Scope)
    ensures VisibleData(Merge(map[], flags), scope) == Merge(map[], Visible(flags, scope))
        <==> NotShadowed(flags, scope)
  {
    var seen, own := VisibleData(Merge(map[], flags), scope), Merge(map[], Visible(flags, scope));
    forall key
      ensures key in seen <==> LastFor(flags, key).Some? && Shows(scope, LastFor(flags, key).value)
      ensures key in seen ==> key in own && seen[key] == own[key]
      ensures key in own <==> exists f :: f in flags && f.key == key && Shows(scope, f)
    {
      VisibleAt(flags, scope, key);
    }
    if NotShadowed(flags, scope) {
      assert forall key | key in own :: key in seen;
      assert seen == own;
    }
    if seen == own {
      forall f | f in flags && Shows(scope, f)
        ensures LastFor(flags, f.key).Some? && Shows(scope, LastFor(flags, f.key).value)
      {
        assert f.key in own;
      }
    }
  }

  lemma {:induction false} VisibleAt(flags: seq<Flag>, scope: Scope, key: string)
    ensures var seen, own := VisibleData(Merge(map[], flags), scope), Merge(map[], Visible(flags, scope));
            && (key in seen <==> LastFor(flags, key).Some? && Shows(scope, LastFor(flags, key).value))
            && (key in seen ==> key in own && seen[key] == own[key])
            && (key in own <==> exists f :: f in flags && f.key == key && Shows(scope, f))
  {
    MergeIsLast(map[], flags, key);
    MergeIsLast(map[], Visible(flags, scope), key);
    LastVisible(flags, scope, key);
    LastForSound(flags, key);
    VisibleHasIt(flags, scope, key);
  }

  lemma {:induction false} VisibleHasIt(flags: seq<Flag>, scope: Scope, key: string)
    ensures (exists f :: f in flags && f.key == key && Shows(scope, f)) ==>
              LastFor(Visible(flags, scope), key).Some?
  {
    if flags != [] {
      var rest, f := flags[..|flags| - 1], flags[|flags| - 1];
      VisibleHasIt(rest, scope, key);
      assert flags == rest + [f];
      assert Shows(scope, f) ==> Visible(flags, scope)[..|Visible(rest, scope)|] == Visible(rest, scope);
    }
  }

  lemma {:induction false} MergeSize(flags: seq<Flag>)
    ensures |Merge(map[], flags)| <= |flags|
    ensures |Merge(map[], flags)| == |flags| ==> forall f | f in flags :: LastFor(flags, f.key) == Some(f)
  {
    if flags != [] {
      var rest, f := flags[..|flags| - 1], flags[|flags| - 1];
      MergeSize(rest);
      var m := Merge(map[], rest);
      assert m[f.key := f].Keys == m.Keys + {f.key};
      forall g | g in rest && |Merge(map[], flags)| == |flags|
        ensures g.key != f.key
      {
        MergeIsLast(map[], rest, g.key);
      }
    }
  }

  /** The endpoint: whatever order the cache yields its flags in, the response merges into exactly
      the visible part of the cache, under the cache's revision. */
  method Snapshot(cache: Cache, scope: Scope) returns (data: seq<Flag>, revision: int)
    requires KeyedByOwnKey(cache.data)
    ensures Merge(map[], data) == VisibleData(cache.data, scope)
    ensures revision == cache.revision
  {
    var flags;
    flags, revision := cache.GetSnapshot();
    MergeSize(flags);
    SnapshotIsolation(flags, scope);
    data := FetchAll(flags, scope);
  }

  /** The production flag "k" hides the development flag "k" from development clients. */
  lemma {:induction false} AnotherEnvironmentShadows()
    ensures var dev := Flag("default", "dev", "k", "true", 1, 0, "bool");
            var prod := Flag("default", "prod", "k", "false", 1, 0, "bool");
            var scope := Scope("dev", {"default"});
            && VisibleData(Merge(map[], [dev, prod]), scope) == map[]
            && Merge(map[], Visible([dev, prod], scope)) == map["k" := dev]
  {
    var dev := Flag("default", "dev", "k", "true", 1, 0, "bool");
    var prod := Flag("default", "prod", "k", "false", 1, 0, "bool");
    var scope := Scope("dev", {"default"});
    assert "dev"[0] != "prod"[0];
    assert Shows(scope, dev) && !Shows(scope, prod);
    assert [dev, prod][..1] == [dev] && [dev][..0] == [];
    assert Visible([dev], scope) == [dev];
    assert Merge(map[], [dev]) == map["k" := dev];
    assert Merge(map[], [dev, prod]) == map["k" := prod];
  }
}
