/** The etcd key of a feature and the parser the watcher applies to the keys of
    delete events. */
module FeatureKey {
  import opened Model

  function BuildFeatureKey(id: FeatureId): string {
    "/mizuflow/" + id.env + "/" + id.namespace + "/features/" + id.key
  }

  predicate SlashFree(s: string) {
    '/' !in s
  }

  /** Environment and namespace can be told apart in the key. */
  predicate WellNamed(id: FeatureId) {
    SlashFree(id.env) && SlashFree(id.namespace)
  }

  /** Splitting at every slash, as Go's strings.Split does. */
  function Split(s: string): (parts: seq<string>)
    ensures |parts| >= 1
    ensures forall i | 0 <= i < |parts| :: SlashFree(parts[i])
  {
    if s == "" then [""]
    else if s[0] == '/' then [""] + Split(s[1..])
    else Prepend(s[0], Split(s[1..]))
  }

  function Prepend(c: char, parts: seq<string>): (r: seq<string>)
    requires |parts| >= 1
    ensures |r| == |parts| && r[0] == [c] + parts[0] && r[1..] == parts[1..]
    ensures forall i | 1 <= i < |r| :: r[i] == parts[i]
  {
    [[c] + parts[0]] + parts[1..]
  }

  /** What the watcher makes of the key of a delete event. */
  function ParseDeleteKey(fullKey: string): FeatureId {
    var parts := Split(fullKey);
    if |parts| >= 6 then FeatureId(parts[3], parts[2], parts[5])
    else FeatureId("", "", fullKey)
  }

  lemma {:induction false} SplitConcat(a: string, b: string)
    ensures Split(a + "/" + b) == Split(a) + Split(b)
  {
    var whole := a + "/" + b;
    if a == "" {
      assert whole[0] == '/' && whole[1..] == b;
    } else {
      assert whole[0] == a[0] && whole[1..] == a[1..] + "/" + b;
      SplitConcat(a[1..], b);
      if a[0] != '/' {
        PrependConcat(a[0], Split(a[1..]), Split(b));
      }
    }
  }

  lemma {:induction false} PrependConcat(c: char, left: seq<string>, right: seq<string>)
    requires |left| >= 1
    ensures Prepend(c, left + right) == Prepend(c, left) + right
  {
    assert (left + right)[1..] == left[1..] + right;
  }

  lemma {:induction false} SplitSlashFree(s: string)
    requires SlashFree(s)
    ensures Split(s) == [s]
  {
    if s != "" {
      assert s[0] in s && forall c | c in s[1..] :: c in s;
      SplitSlashFree(s[1..]);
      assert s == [s[0]] + s[1..];
    }
  }

  lemma {:induction false} SplitSix(a: string, b: string, c: string, d: string, e: string, f: string)
    ensures Split(a + "/" + b + "/" + c + "/" + d + "/" + e + "/" + f)
         == Split(a) + Split(b) + Split(c) + Split(d) + Split(e) + Split(f)
  {
    SplitConcat(a, b);
    SplitConcat(a + "/" + b, c);
    SplitConcat(a + "/" + b + "/" + c, d);
    SplitConcat(a + "/" + b + "/" + c + "/" + d, e);
    SplitConcat(a + "/" + b + "/" + c + "/" + d + "/" + e, f);
  }

  lemma {:induction false} KeyHasSixParts(id: FeatureId)
    ensures BuildFeatureKey(id)
         == "" + "/" + "mizuflow" + "/" + id.env + "/" + id.namespace + "/" + "features" + "/" + id.key
  {
    assert "/mizuflow/" == "" + "/" + "mizuflow" + "/";
    assert "/features/" == "/" + "features" + "/";
    Regroup("/mizuflow/", id.env, "/", id.namespace, "/", "features", "/", "/features/", id.key);
  }

  lemma {:induction false} Regroup(root: string, a: string, s: string, b: string, t: string, f: string, u: string,
        tfu: string, k: string)
    requires tfu == t + f + u
    ensures root + a + s + b + tfu + k == root + a + s + b + t + f + u + k
  {
  }

  lemma {:induction false} SplitOfKey(id: FeatureId)
    ensures Split(BuildFeatureKey(id))
         == [""] + ["mizuflow"] + Split(id.env) + Split(id.namespace) + ["features"] + Split(id.key)
  {
    hide Split, BuildFeatureKey;
    KeyHasSixParts(id);
    SplitSix("", "mizuflow", id.env, id.namespace, "features", id.key);
    SplitSlashFree("");
    SplitSlashFree("mizuflow");
    SplitSlashFree("features");
  }

  /** The delete path recovers a feature from its key exactly when no part of the
      identity contains a slash. */
  lemma {:induction false} DeleteKeyRoundTrip(id: FeatureId)
    ensures ParseDeleteKey(BuildFeatureKey(id)) == id
        <==> SlashFree(id.env) && SlashFree(id.namespace) && SlashFree(id.key)
  {
    SplitOfKey(id);
    var parts := Split(BuildFeatureKey(id));
    if SlashFree(id.env) && SlashFree(id.namespace) && SlashFree(id.key) {
      SplitSlashFree(id.env);
      SplitSlashFree(id.namespace);
      SplitSlashFree(id.key);
      assert parts == ["", "mizuflow", id.env, id.namespace, "features", id.key];
    } else {
      assert |parts| >= 6;
      assert parts[2] in parts && parts[3] in parts && parts[5] in parts;
    }
  }

  /** Distinct well-named features never share an etcd key. */
  lemma {:induction false} KeysAreInjective(a: FeatureId, b: FeatureId)
    requires WellNamed(a) && WellNamed(b)
    requires BuildFeatureKey(a) == BuildFeatureKey(b)
    ensures a == b
  {
    SplitOfKey(a);
    SplitOfKey(b);
    SplitSlashFree(a.env);
    SplitSlashFree(a.namespace);
    SplitSlashFree(b.env);
    SplitSlashFree(b.namespace);
    var parts := Split(BuildFeatureKey(a));
    assert parts[2] == a.env == b.env;
    assert parts[3] == a.namespace == b.namespace;
    var prefix := "/mizuflow/" + a.env + "/" + a.namespace + "/features/";
    assert BuildFeatureKey(a) == prefix + a.key;
    assert BuildFeatureKey(b) == prefix + b.key;
    assert a.key == BuildFeatureKey(a)[|prefix|..] == b.key;
  }

  // ----- which features own their key -----

  /** No other feature has this feature's etcd key. */
  ghost predicate OwnsKey(id: FeatureId) {
    forall other :: BuildFeatureKey(other) == BuildFeatureKey(id) ==> other == id
  }

  const MARK := "/features/"

  /** The short key looks as if a namespace ended in it. */
  predicate Nested(key: string) {
    exists i | 0 <= i < |key| :: MarkAt("/" + key, i)
  }

  predicate MarkAt(s: string, i: nat) {
    i + |MARK| <= |s| && s[i..i + |MARK|] == MARK
  }

  /** Every slash in an environment or a namespace makes two features collide: it may as well be the
      one between the two. */
  lemma {:induction false} SlashesCollide(a: string, b: string, c: string, key: string)
    ensures BuildFeatureKey(FeatureId(c, a + "/" + b, key)) == BuildFeatureKey(FeatureId(b + "/" + c, a, key))
    ensures FeatureId(c, a + "/" + b, key) != FeatureId(b + "/" + c, a, key)
  {
    assert "/mizuflow/" + (a + "/" + b) + "/" + c + MARK + key == "/mizuflow/" + a + "/" + (b + "/" + c) + MARK + key;
    assert |a + "/" + b| > |a|;
  }

  /** So does a short key in which the features segment occurs again. */
  lemma {:induction false} NestedCollides(id: FeatureId, i: nat)
    requires MarkAt("/" + id.key, i)
    ensures !OwnsKey(id)
  {
    var rest := "/" + id.key;
    var other := FeatureId(id.namespace + "/features" + rest[..i], id.env, rest[i + |MARK|..]);
    SplitAtMark(rest, i);
    assert MARK == "/features" + "/";
    MoveSlash("/mizuflow/" + id.env + "/", id.namespace, "/features", "/", id.key);
    MoveTail("/mizuflow/" + id.env + "/", id.namespace, "/features", rest[..i], MARK, rest[i + |MARK|..]);
    assert BuildFeatureKey(other) == BuildFeatureKey(id);
    assert |other.namespace| > |id.namespace|;
  }

  lemma {:induction false} SplitAtMark(s: string, i: nat)
    requires MarkAt(s, i)
    ensures s == s[..i] + MARK + s[i + |MARK|..]
  {
  }

  lemma {:induction false} MoveSlash(a: string, b: string, c: string, d: string, e: string)
    ensures a + b + (c + d) + e == a + b + c + (d + e)
  {
  }

  lemma {:induction false} MoveTail(a: string, b: string, c: string, d: string, e: string, f: string)
    ensures a + (b + c + d) + e + f == a + b + c + (d + e + f)
  {
  }

  /** Where the parts of a key lie. */
  lemma {:induction false} KeyLayout(id: FeatureId)
    ensures var s, e, f := BuildFeatureKey(id), 10 + |id.env|, 11 + |id.env| + |id.namespace|;
            && |s| == f + |MARK| + |id.key|
            && s[10..e] == id.env && s[e] == '/' && s[e + 1..f] == id.namespace
            && MarkAt(s, f) && s[f + |MARK|..] == id.key
            && s[f + |MARK| - 1..] == "/" + id.key
  {
    var s, e, f := BuildFeatureKey(id), 10 + |id.env|, 11 + |id.env| + |id.namespace|;
    assert s == "/mizuflow/" + id.env + "/" + id.namespace + MARK + id.key;
    assert s[f..f + |MARK|] == MARK;
  }

  /** The slashes of a well-named key before the short key are where they should be. */
  lemma {:induction false} FirstSlashes(id: FeatureId, i: nat)
    requires WellNamed(id) && 10 <= i < 20 + |id.env| + |id.namespace|
    ensures i < |BuildFeatureKey(id)|
    ensures BuildFeatureKey(id)[i] == '/' ==> i in {10 + |id.env|, 11 + |id.env| + |id.namespace|}
  {
    KeyLayout(id);
    var s, e, f := BuildFeatureKey(id), 10 + |id.env|, 11 + |id.env| + |id.namespace|;
    if i < e {
      assert s[i] == s[10..e][i - 10] == id.env[i - 10];
    } else if e < i < f {
      assert s[i] == s[e + 1..f][i - e - 1] == id.namespace[i - e - 1];
    } else if f < i {
      assert s[i] == s[f..f + |MARK|][i - f] == MARK[i - f];
    }
  }

  /** A mark that starts no earlier than the last slash before the short key lies in it. */
  lemma {:induction false} LaterMark(id: FeatureId, i: nat)
    requires i >= 20 + |id.env| + |id.namespace| && MarkAt(BuildFeatureKey(id), i)
    ensures Nested(id.key)
  {
    KeyLayout(id);
    var s, last := BuildFeatureKey(id), 20 + |id.env| + |id.namespace|;
    assert s[last..][i - last..i - last + |MARK|] == s[i..i + |MARK|];
    assert MarkAt("/" + id.key, i - last);
  }

  lemma {:induction false} OnlyOneReading(id: FeatureId, other: FeatureId)
    requires WellNamed(id) && !Nested(id.key) && BuildFeatureKey(other) == BuildFeatureKey(id)
    ensures other == id
  {
    KeyLayout(id);
    KeyLayout(other);
    var s, f' := BuildFeatureKey(id), 11 + |other.env| + |other.namespace|;
    assert s[f'] == s[f'..f' + |MARK|][0] == '/';
    if f' >= 20 + |id.env| + |id.namespace| {
      LaterMark(id, f');
      assert false;
    }
    FirstSlashes(id, 10 + |other.env|);
    FirstSlashes(id, f');
  }

  /** A feature owns its etcd key exactly when neither its environment nor its namespace contains a
      slash and the features segment does not occur again in its short key. */
  lemma {:induction false} KeyIsUnique(id: FeatureId)
    ensures OwnsKey(id) <==> WellNamed(id) && !Nested(id.key)
  {
    if WellNamed(id) && !Nested(id.key) {
      forall other | BuildFeatureKey(other) == BuildFeatureKey(id)
        ensures other == id
      {
        OnlyOneReading(id, other);
      }
    } else if !SlashFree(id.env) {
      var i :| 0 <= i < |id.env| && id.env[i] == '/';
      SlashesCollide(id.env[..i], id.env[i + 1..], id.namespace, id.key);
      assert id.env == id.env[..i] + "/" + id.env[i + 1..];
    } else if !SlashFree(id.namespace) {
      var i :| 0 <= i < |id.namespace| && id.namespace[i] == '/';
      SlashesCollide(id.env, id.namespace[..i], id.namespace[i + 1..], id.key);
      assert id.namespace == id.namespace[..i] + "/" + id.namespace[i + 1..];
    } else {
      var i :| 0 <= i < |id.key| && MarkAt("/" + id.key, i);
      NestedCollides(id, i);
    }
  }
}
