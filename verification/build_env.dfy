/**
  `buildEnv`: the child's environment, the process's own with an overlay put over
  it through an index of the variables present.
*/
module BuildEnvironment {
  import opened Wrappers

  const EQUALS := '='

  /** The position of the first `=`, or the length. */
  function NameEnd(entry: string): (n: nat)
    ensures n <= |entry|
    ensures forall i :: 0 <= i < n ==> entry[i] != EQUALS
    ensures n < |entry| ==> entry[n] == EQUALS
  {
    if entry == "" || entry[0] == EQUALS then 0
    else 1 + NameEnd(entry[1..])
  }

  /** The variable an entry sets; entries without `=` set none. */
  function Name(entry: string): Option<string> {
    if NameEnd(entry) < |entry| then Some(entry[..NameEnd(entry)]) else None
  }

  function Entry(name: string, value: string): string {
    name + [EQUALS] + value
  }

  /** The last entry that sets `name`, or -1. */
  function LastSetting(env: seq<string>, name: string): (i: int)
    ensures -1 <= i < |env|
    ensures i >= 0 ==> Name(env[i]) == Some(name)
    ensures forall j :: i < j < |env| ==> Name(env[j]) != Some(name)
  {
    if env == [] then -1
    else if Name(env[|env| - 1]) == Some(name) then |env| - 1
    else LastSetting(env[..|env| - 1], name)
  }

  /** The value a process with this environment sees: the last entry for a name wins. */
  function Get(env: seq<string>, name: string): Option<string> {
    var i := LastSetting(env, name);
    if i < 0 then None else Some(env[i][NameEnd(env[i]) + 1..])
  }

  /** What `idx` holds once the first `n` entries have been seen. */
  ghost predicate Indexes(idx: map<string, nat>, env: seq<string>) {
    && (forall name :: name in idx ==> idx[name] == LastSetting(env, name))
    && (forall name :: LastSetting(env, name) >= 0 ==> name in idx)
  }

  /** The inner loop: stops at the first `=`. */
  method FindEquals(kv: string) returns (j: nat)
    ensures j == NameEnd(kv)
  {
    j := 0;
    while j < |kv| && kv[j] != EQUALS
      invariant 0 <= j <= |kv|
      invariant forall l :: 0 <= l < j ==> kv[l] != EQUALS
    {
      j := j + 1;
    }
    NameEndIs(kv, j);
  }

  method IndexNames(env: seq<string>) returns (idx: map<string, nat>)
    ensures Indexes(idx, env)
  {
    idx := map[];
    var i := 0;
    while i < |env|
      invariant 0 <= i <= |env|
      invariant Indexes(idx, env[..i])
    {
      var kv := env[i];
      var j := FindEquals(kv);
      IndexStep(idx, env, i, j);
      if j < |kv| {
        idx := idx[kv[..j] := i];
      }
      i := i + 1;
    }
    assert env[..|env|] == env;
  }

  /** One more entry. */
  lemma IndexStep(idx: map<string, nat>, env: seq<string>, i: nat, j: nat)
    requires i < |env| && Indexes(idx, env[..i]) && j == NameEnd(env[i])
    ensures Indexes(if j < |env[i]| then idx[env[i][..j] := i] else idx, env[..i + 1])
  {
    assert env[..i + 1][..i] == env[..i];
  }

  lemma NameEndIs(entry: string, n: nat)
    requires n <= |entry| && forall i :: 0 <= i < n ==> entry[i] != EQUALS
    requires n < |entry| ==> entry[n] == EQUALS
    ensures NameEnd(entry) == n
  {
  }

  lemma EntryName(name: string, value: string)
    ensures Name(Entry(name, value)).Some?
    ensures EQUALS !in Name(Entry(name, value)).value
    ensures EQUALS !in name ==>
              && Name(Entry(name, value)) == Some(name)
              && Entry(name, value)[NameEnd(Entry(name, value)) + 1..] == value
  {
    var entry := Entry(name, value);
    assert entry[|name|] == EQUALS;
    assert NameEnd(entry) <= |name|;
    if EQUALS !in name {
      assert entry[..|name|] == name;
      NameEndIs(entry, |name|);
    }
  }

  /** The entry gives the variable `name` a value. */
  predicate Sets(entry: string, name: string) {
    |name| < |entry| && entry[..|name|] == name && entry[|name|] == '='
  }

  lemma SetsExactly(entry: string, name: string)
    requires '=' !in name
    ensures Name(entry) == Some(name) <==> Sets(entry, name)
    ensures Sets(entry, name) ==> NameEnd(entry) == |name|
  {
    if Sets(entry, name) {
      assert forall i :: 0 <= i < |name| ==> entry[i] == name[i];
      NameEndIs(entry, |name|);
    }
  }

  /** A process sees the value of the last entry that sets the variable, and none if no entry does. */
  lemma GetExactly(env: seq<string>, name: string, value: string)
    requires '=' !in name
    ensures Get(env, name) == Some(value) <==>
            exists i :: 0 <= i < |env| && env[i] == name + "=" + value &&
                forall j :: i < j < |env| ==> !Sets(env[j], name)
    ensures Get(env, name) == None <==> forall j :: 0 <= j < |env| ==> !Sets(env[j], name)
  {
    var last := LastSetting(env, name);
    forall j | 0 <= j < |env| ensures Name(env[j]) == Some(name) <==> Sets(env[j], name) {
      SetsExactly(env[j], name);
    }
    if last >= 0 {
      SetsExactly(env[last], name);
      assert env[last] == name + "=" + env[last][|name| + 1..];
    }
    if i :| 0 <= i < |env| && env[i] == name + "=" + value && forall j :: i < j < |env| ==> !Sets(env[j], name) {
      assert Sets(env[i], name);
      assert i == last;
      assert env[i][|name| + 1..] == value;
    }
  }

  // ----- the overlay

  /** Entry `i` after the names in `done` were put over `environ`: only the last entry for a name gives way. */
  function Placed(environ: seq<string>, overlay: map<string, string>, done: set<string>, i: nat): string
    requires done <= overlay.Keys && i < |environ|
  {
    var name := Name(environ[i]);
    if name.Some? && name.value in done && LastSetting(environ, name.value) == i
    then Entry(name.value, overlay[name.value])
    else environ[i]
  }

  /**
    The environment after the names in `done` were put over `environ`: some entries in place, the rest
    behind, in the order `added`.
  */
  ghost predicate Overlaid(env: seq<string>, environ: seq<string>, overlay: map<string, string>, done: set<string>,
      added: seq<string>)
    requires done <= overlay.Keys
  {
    && |env| == |environ| + |added|
    && (forall i :: 0 <= i < |environ| ==>
          env[i] == Placed(environ, overlay, done, i))
    && (forall j :: 0 <= j < |added| ==>
          added[j] in done && LastSetting(environ, added[j]) < 0
          && env[|environ| + j] == Entry(added[j], overlay[added[j]]))
    && (forall j, k :: 0 <= j < k < |added| ==> added[j] != added[k])
    && (forall name :: name in done && LastSetting(environ, name) < 0 ==> name in added)
  }

  lemma NothingPut(environ: seq<string>, overlay: map<string, string>)
    ensures Overlaid(environ, environ, overlay, {}, [])
  {
  }

  lemma PutInPlace(env: seq<string>, environ: seq<string>, overlay: map<string, string>, done: set<string>,
      added: seq<string>, k: string)
    requires done <= overlay.Keys && k in overlay && k !in done && Overlaid(env, environ, overlay, done, added)
    requires LastSetting(environ, k) >= 0
    ensures Overlaid(env[LastSetting(environ, k) := Entry(k, overlay[k])], environ, overlay, done + {k}, added)
  {
    var at := LastSetting(environ, k);
    forall i | 0 <= i < |environ|
      ensures i != at ==> Placed(environ, overlay, done + {k}, i) == Placed(environ, overlay, done, i)
    {
    }
  }

  /** A name that no entry sets changes nothing in place. */
  lemma PlacedAlike(environ: seq<string>, overlay: map<string, string>, done: set<string>, k: string, i: nat)
    requires done <= overlay.Keys && k in overlay && LastSetting(environ, k) < 0 && i < |environ|
    ensures Placed(environ, overlay, done + {k}, i) == Placed(environ, overlay, done, i)
  {
  }

  lemma PutBehind(env: seq<string>, environ: seq<string>, overlay: map<string, string>, done: set<string>,
      added: seq<string>, k: string)
    requires done <= overlay.Keys && k in overlay && k !in done && Overlaid(env, environ, overlay, done, added)
    requires LastSetting(environ, k) < 0
    ensures Overlaid(env + [Entry(k, overlay[k])], environ, overlay, done + {k}, added + [k])
  {
    var env', more := env + [Entry(k, overlay[k])], added + [k];
    forall i | 0 <= i < |environ| ensures env'[i] == Placed(environ, overlay, done + {k}, i) {
      PlacedAlike(environ, overlay, done, k, i);
      assert env'[i] == env[i];
    }
    forall j | 0 <= j < |more|
      ensures more[j] in done + {k} && LastSetting(environ, more[j]) < 0
      ensures env'[|environ| + j] == Entry(more[j], overlay[more[j]])
    {
      assert j < |added| ==> more[j] == added[j] && env'[|environ| + j] == env[|environ| + j];
    }
    assert more[|added|] == k;
    assert forall name :: name in added ==> name in more;
  }

  predicate NamesClean(overlay: map<string, string>) {
    forall name :: name in overlay ==> '=' !in name
  }

  /** The overlay takes effect. */
  predicate Effective(env: seq<string>, overlay: map<string, string>) {
    forall name :: name in overlay ==> Get(env, name) == Some(overlay[name])
  }

  /**
    The overlay takes full effect exactly when none of its names contains `=`, and then every
    other variable keeps its value.  Map iteration order does not matter to either.
  */
  method BuildEnv(environ: seq<string>, overlay: map<string, string>)
      returns (env: seq<string>, ghost added: seq<string>)
    ensures overlay == map[] ==> env == environ
    ensures Overlaid(env, environ, overlay, overlay.Keys, added)
    ensures Effective(env, overlay) <==> NamesClean(overlay)
    ensures NamesClean(overlay) ==> forall name :: name !in overlay ==> Get(env, name) == Get(environ, name)
  {
    env, added := environ, [];
    NothingPut(environ, overlay);
    if overlay == map[] {
      assert overlay.Keys == {};
      OverlayOutcome(env, environ, overlay, added);
      return;
    }
    var idx := IndexNames(environ);
    var left := overlay.Keys;
    assert overlay.Keys - left == {};
    while left != {}
      invariant left <= overlay.Keys
      invariant Overlaid(env, environ, overlay, overlay.Keys - left, added)
      decreases left
    {
      var k :| k in left;
      ghost var done := overlay.Keys - left;
      var kv := Entry(k, overlay[k]);
      if k in idx {
        PutInPlace(env, environ, overlay, done, added, k);
        env := env[idx[k] := kv];
      } else {
        PutBehind(env, environ, overlay, done, added, k);
        env := env + [kv];
        added := added + [k];
      }
      left := left - {k};
      assert overlay.Keys - left == done + {k};
    }
    assert overlay.Keys - left == overlay.Keys;
    OverlayOutcome(env, environ, overlay, added);
  }

  lemma OverlayOutcome(env: seq<string>, environ: seq<string>, overlay: map<string, string>, added: seq<string>)
    requires Overlaid(env, environ, overlay, overlay.Keys, added)
    ensures Effective(env, overlay) <==> NamesClean(overlay)
    ensures NamesClean(overlay) ==> forall name :: name !in overlay ==> Get(env, name) == Get(environ, name)
  {
    if NamesClean(overlay) {
      forall name | name in overlay
        ensures Get(env, name) == Some(overlay[name])
      {
        OverlaidNamed(env, environ, overlay, added, name);
      }
      forall name | name !in overlay
        ensures Get(env, name) == Get(environ, name)
      {
        OverlaidOther(env, environ, overlay, added, name);
      }
    } else {
      var name :| name in overlay && EQUALS in name;
      assert Get(env, name).None?;
    }
  }

  lemma NamesKept(env: seq<string>, environ: seq<string>, overlay: map<string, string>, added: seq<string>)
    requires Overlaid(env, environ, overlay, overlay.Keys, added) && NamesClean(overlay)
    ensures forall i :: 0 <= i < |environ| ==> Name(env[i]) == Name(environ[i])
    ensures forall i :: |environ| <= i < |env| ==> Name(env[i]) == Some(added[i - |environ|])
  {
    forall name | name in overlay
      ensures Name(Entry(name, overlay[name])) == Some(name)
    {
      EntryName(name, overlay[name]);
    }
    forall i | |environ| <= i < |env|
      ensures Name(env[i]) == Some(added[i - |environ|])
    {
      var j := i - |environ|;
      assert env[|environ| + j] == Entry(added[j], overlay[added[j]]);
    }
  }

  lemma LastSettingIs(env: seq<string>, name: string, i: int)
    requires -1 <= i < |env|
    requires i >= 0 ==> Name(env[i]) == Some(name)
    requires forall j :: i < j < |env| ==> Name(env[j]) != Some(name)
    ensures LastSetting(env, name) == i
  {
  }

  lemma OverlaidNamed(env: seq<string>, environ: seq<string>, overlay: map<string, string>, added: seq<string>,
      name: string)
    requires Overlaid(env, environ, overlay, overlay.Keys, added) && NamesClean(overlay)
    requires name in overlay
    ensures Get(env, name) == Some(overlay[name])
  {
    if LastSetting(environ, name) >= 0 {
      OverlaidInPlace(env, environ, overlay, added, name);
    } else {
      OverlaidBehind(env, environ, overlay, added, name);
    }
  }

  /** The entry at `i` is the last that sets `name`, and what the overlay says. */
  lemma LastEntryGives(env: seq<string>, name: string, value: string, i: nat)
    requires i < |env| && env[i] == Entry(name, value) && EQUALS !in name
    requires forall j :: i < j < |env| ==> Name(env[j]) != Some(name)
    ensures Get(env, name) == Some(value)
  {
    EntryName(name, value);
    LastSettingIs(env, name, i);
  }

  lemma OverlaidInPlace(env: seq<string>, environ: seq<string>, overlay: map<string, string>, added: seq<string>,
      name: string)
    requires Overlaid(env, environ, overlay, overlay.Keys, added) && NamesClean(overlay)
    requires name in overlay && LastSetting(environ, name) >= 0
    ensures Get(env, name) == Some(overlay[name])
  {
    NamesKept(env, environ, overlay, added);
    var i := LastSetting(environ, name);
    assert env[i] == Placed(environ, overlay, overlay.Keys, i) == Entry(name, overlay[name]);
    forall j | i < j < |env|
      ensures Name(env[j]) != Some(name)
    {
      if j >= |environ| {
        assert added[j - |environ|] != name;
      }
    }
    LastEntryGives(env, name, overlay[name], i);
  }

  lemma OverlaidBehind(env: seq<string>, environ: seq<string>, overlay: map<string, string>, added: seq<string>,
      name: string)
    requires Overlaid(env, environ, overlay, overlay.Keys, added) && NamesClean(overlay)
    requires name in overlay && LastSetting(environ, name) < 0
    ensures Get(env, name) == Some(overlay[name])
  {
    NamesKept(env, environ, overlay, added);
    assert name in added;
    var k :| 0 <= k < |added| && added[k] == name;
    assert env[|environ| + k] == Entry(name, overlay[name]);
    forall j | |environ| + k < j < |env|
      ensures Name(env[j]) != Some(name)
    {
      assert added[j - |environ|] != added[k];
    }
    LastEntryGives(env, name, overlay[name], |environ| + k);
  }

  lemma OverlaidOther(env: seq<string>, environ: seq<string>, overlay: map<string, string>, added: seq<string>,
      name: string)
    requires Overlaid(env, environ, overlay, overlay.Keys, added) && NamesClean(overlay)
    requires name !in overlay
    ensures Get(env, name) == Get(environ, name)
  {
    NamesKept(env, environ, overlay, added);
    var i := LastSetting(environ, name);
    forall j | i < j < |env|
      ensures Name(env[j]) != Some(name)
    {
      if j >= |environ| {
        assert added[j - |environ|] in overlay;
      }
    }
    LastSettingIs(env, name, i);
  }
}
