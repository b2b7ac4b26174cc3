/** Lua's table of runtimes as a value, over any type of runtime and queue identities. */
module Registries {
  import opened Options

  /** The fields of a runtime object that loading and unloading touch. */
  datatype Fields<Q> = Fields(key: Option<string>, finished: bool, tq: Option<Q>)

  datatype Registry<!R(==), Q> = Registry(runtimes: map<R, Fields<Q>>, byKey: map<string, R>)

  const AMPERSAND: char := '&'

  /** `lib`, or `lib & cfg` when a configuration is given. */
  function Key(lib: string, cfg: Option<string>): string {
    if cfg.None? then lib else lib + [AMPERSAND] + cfg.value
  }

  function Register<R, Q>(g: Registry<R, Q>, r: R, key: string, q: Q): Registry<R, Q> {
    Registry(g.runtimes[r := Fields(Some(key), false, Some(q))], g.byKey[key := r])
  }

  /** `unload`: does something only the first time. */
  function Unload<R, Q>(g: Registry<R, Q>, r: R): Registry<R, Q>
    requires r in g.runtimes
  {
    var f := g.runtimes[r];
    if f.finished then g
    else Registry(g.runtimes[r := Fields(None, true, None)],
                  if f.key.Some? then g.byKey - {f.key.value} else g.byKey)
  }

  /** Every registered runtime is unfinished and stored under its own key; every unfinished
      runtime is registered and has a queue that is no other runtime's. */
  ghost predicate Inv<R, Q>(g: Registry<R, Q>) {
    && (forall k :: k in g.byKey ==> g.byKey[k] in g.runtimes && g.runtimes[g.byKey[k]].key == Some(k))
    && (forall r :: r in g.runtimes ==> FieldsOk(g, r, g.runtimes[r]))
    && (forall r, r' :: r in g.runtimes && r' in g.runtimes && r != r' && g.runtimes[r].tq.Some? ==>
          g.runtimes[r].tq != g.runtimes[r'].tq)
  }

  ghost predicate FieldsOk<R, Q>(g: Registry<R, Q>, r: R, f: Fields<Q>) {
    && (f.finished <==> f.tq.None?) && (f.finished <==> f.key.None?)
    && (f.key.Some? ==> f.key.value in g.byKey && g.byKey[f.key.value] == r)
  }

  ghost predicate Owned<R, Q>(g: Registry<R, Q>, q: Q) {
    exists r :: r in g.runtimes && g.runtimes[r].tq == Some(q)
  }

  lemma RegisterKeepsInv<R, Q>(g: Registry<R, Q>, r: R, key: string, q: Q)
    requires Inv(g) && key !in g.byKey && r !in g.runtimes && !Owned(g, q)
    ensures Inv(Register(g, r, key, q))
  {
  }

  lemma UnloadKeepsInv<R, Q>(g: Registry<R, Q>, r: R)
    requires Inv(g) && r in g.runtimes
    ensures Inv(Unload(g, r))
  {
  }

  /** A second unload of a stale runtime changes nothing, so it never unregisters a successor
      loaded under the same key. */
  lemma StaleUnloadKeepsSuccessor<R, Q>(g: Registry<R, Q>, r: R, r': R, key: string, q: Q)
    requires Inv(g) && r in g.runtimes && g.runtimes[r].key == Some(key)
    requires r' !in g.runtimes && !Owned(Unload(g, r), q)
    ensures key !in Unload(g, r).byKey
    ensures var g' := Register(Unload(g, r), r', key, q);
            Inv(g') && g'.byKey[key] == r' && r' != r && Unload(g', r) == g'
  {
    UnloadKeepsInv(g, r);
    RegisterKeepsInv(Unload(g, r), r', key, q);
  }

  // ----- the key -----

  lemma {:induction false} SameSplit(a: string, b: string, c: string, d: string)
    requires AMPERSAND !in a && AMPERSAND !in c && a + [AMPERSAND] + b == c + [AMPERSAND] + d
    ensures a == c && b == d
  {
    var s, s' := a + [AMPERSAND] + b, c + [AMPERSAND] + d;
    assert s[|a|] == AMPERSAND && s'[|c|] == AMPERSAND;
    assert forall i :: 0 <= i < |a| ==> s[i] == a[i];
    assert forall i :: 0 <= i < |c| ==> s'[i] == c[i];
    assert |a| == |c|;
    assert s[..|a|] == a && s'[..|c|] == c;
    assert s[|a| + 1..] == b && s'[|c| + 1..] == d;
  }

  lemma {:induction false} FirstAmpersand(s: string) returns (a: string, b: string)
    requires AMPERSAND in s
    ensures AMPERSAND !in a && s == a + [AMPERSAND] + b
  {
    if s[0] == AMPERSAND {
      a, b := "", s[1..];
    } else {
      a, b := FirstAmpersand(s[1..]);
      a := [s[0]] + a;
    }
  }

  /** A library name without `&` is told apart, with its configuration, from every other such
      name by the key; one with `&` is not. */
  lemma KeyInjectiveIffNoAmpersand(lib: string)
    ensures Key(lib, None) == lib && forall cfg :: Key(lib, Some(cfg)) == lib + "&" + cfg
    ensures AMPERSAND !in lib <==>
              forall cfg, lib', cfg' :: AMPERSAND !in lib' && Key(lib, cfg) == Key(lib', cfg') ==> lib == lib' && cfg == cfg'
  {
    if AMPERSAND in lib {
      var a, b := FirstAmpersand(lib);
      assert Key(lib, None) == Key(a, Some(b));
    } else {
      forall cfg, lib', cfg' | AMPERSAND !in lib' && Key(lib, cfg) == Key(lib', cfg')
        ensures lib == lib' && cfg == cfg'
      {
        if cfg.Some? && cfg'.Some? {
          SameSplit(lib, cfg.value, lib', cfg'.value);
        }
      }
    }
  }
}
