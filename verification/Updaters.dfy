/** The updater registry of src/resources.js: per kind and key, a list of
    one-shot callbacks. Running a list detaches it first, so that a callback can
    register itself, or anything else, while the list is being walked. */
module Updaters {
  import opened Sequences

  /** The callbacks of one kind, by key. */
  type ListMap<!K, C> = map<K, seq<C>>

  function ArmedAt<K, C>(m: ListMap<K, C>, key: K): seq<C> {
    if key in m then m[key] else []
  }

  /** `setUpdater` within a kind: the callback, if any, replaces whatever was there. */
  function SetIn<K, C>(m: ListMap<K, C>, key: K, cb: Option<C>): ListMap<K, C> {
    m[key := if cb.Some? then [cb.value] else []]
  }

  /** `addUpdater` within a kind: the callback joins the list unless it is already there. */
  function AddIn<K, C(==)>(m: ListMap<K, C>, key: K, cb: C): ListMap<K, C> {
    m[key := if cb in ArmedAt(m, key) then ArmedAt(m, key) else ArmedAt(m, key) + [cb]]
  }

  // ----------------------------------------------------------- registrations

  /** What a callback may do to the registry while it runs. */
  datatype Registration<K, C> =
    | SetUpdater(kind: string, key: K, newest: Option<C>)
    | AddUpdater(kind: string, key: K, cb: C)

  type Table<!K, C> = map<string, ListMap<K, C>>

  function OfKind<K, C>(t: Table<K, C>, kind: string): ListMap<K, C> {
    if kind in t then t[kind] else map[]
  }

  function Registered<K, C(==)>(t: Table<K, C>, r: Registration<K, C>): Table<K, C> {
    match r
    case SetUpdater(kind, key, newest) => t[kind := SetIn(OfKind(t, kind), key, newest)]
    case AddUpdater(kind, key, cb) => t[kind := AddIn(OfKind(t, kind), key, cb)]
  }

  function RegisteredAll<K, C(==)>(t: Table<K, C>, rs: seq<Registration<K, C>>): Table<K, C> {
    if rs == [] then t else Registered(RegisteredAll(t, rs[..|rs| - 1]), rs[|rs| - 1])
  }

  /** The registrations made by running the callbacks in order. */
  function Made<K, C>(cbs: seq<C>, behave: C -> seq<Registration<K, C>>): seq<Registration<K, C>> {
    if cbs == [] then [] else Made(cbs[..|cbs| - 1], behave) + behave(cbs[|cbs| - 1])
  }

  lemma {:induction false} MadeConcat<K, C>(a: seq<C>, b: seq<C>, behave: C -> seq<Registration<K, C>>)
    ensures Made(a + b, behave) == Made(a, behave) + Made(b, behave)
  {
    if b == [] {
      assert a + b == a;
    } else {
      assert (a + b)[..|a + b| - 1] == a + b[..|b| - 1];
      MadeConcat(a, b[..|b| - 1], behave);
    }
  }

  lemma {:induction false} RegisteredConcat<K, C>(
      t: Table<K, C>, a: seq<Registration<K, C>>, b: seq<Registration<K, C>>)
    ensures RegisteredAll(t, a + b) == RegisteredAll(RegisteredAll(t, a), b)
  {
    if b == [] {
      assert a + b == a;
    } else {
      assert (a + b)[..|a + b| - 1] == a + b[..|b| - 1];
      RegisteredConcat(t, a, b[..|b| - 1]);
    }
  }

  /** Adding a callback that is not in the list puts it at the end of that list alone. */
  lemma AddedAt<K, C>(t: Table<K, C>, kind: string, key: K, cb: C, kd: string, k: K)
    requires cb !in ArmedAt(OfKind(t, kind), key)
    ensures ArmedAt(OfKind(Registered(t, AddUpdater(kind, key, cb)), kd), k) ==
      ArmedAt(OfKind(t, kd), k) + if kd == kind && k == key then [cb] else []
  {
  }

  predicate Distinct<C(==)>(cbs: seq<C>) {
    cbs == [] || (cbs[|cbs| - 1] !in cbs[..|cbs| - 1] && Distinct(cbs[..|cbs| - 1]))
  }

  function Additions<K, C>(kind: string, key: K, cbs: seq<C>): seq<Registration<K, C>> {
    if cbs == [] then [] else Additions(kind, key, cbs[..|cbs| - 1]) + [AddUpdater(kind, key, cbs[|cbs| - 1])]
  }

  lemma {:induction false} MadeBySelfRearming<K, C>(
      kind: string, key: K, cbs: seq<C>, behave: C -> seq<Registration<K, C>>)
    requires forall cb :: cb in cbs ==> behave(cb) == [AddUpdater(kind, key, cb)]
    ensures Made(cbs, behave) == Additions(kind, key, cbs)
  {
    if cbs != [] {
      assert cbs[|cbs| - 1] in cbs;
      MadeBySelfRearming(kind, key, cbs[..|cbs| - 1], behave);
    }
  }

  lemma {:induction false} AdditionsAtKey<K, C>(t: Table<K, C>, kind: string, key: K, cbs: seq<C>)
    requires key !in OfKind(t, kind) && Distinct(cbs)
    ensures ArmedAt(OfKind(RegisteredAll(t, Additions(kind, key, cbs)), kind), key) == cbs
  {
    if cbs != [] {
      var init, cb := cbs[..|cbs| - 1], cbs[|cbs| - 1];
      AdditionsAtKey(t, kind, key, init);
      var made := Additions(kind, key, init);
      assert (made + [AddUpdater(kind, key, cb)])[..|made|] == made;
      AddedAt(RegisteredAll(t, made), kind, key, cb, kind, key);
      assert init + [cb] == cbs;
    }
  }

  lemma {:induction false} AdditionsElsewhere<K, C>(t: Table<K, C>, kind: string, key: K, cbs: seq<C>, kd: string, k: K)
    requires kd != kind || k != key
    ensures ArmedAt(OfKind(RegisteredAll(t, Additions(kind, key, cbs)), kd), k) == ArmedAt(OfKind(t, kd), k)
  {
    if cbs != [] {
      var made := Additions(kind, key, cbs[..|cbs| - 1]);
      AdditionsElsewhere(t, kind, key, cbs[..|cbs| - 1], kd, k);
      assert (made + [AddUpdater(kind, key, cbs[|cbs| - 1])])[..|made|] == made;
    }
  }

  /** The updaters of the source re-register themselves, and nothing else, under
      the key they ran for. Running them then leaves the list as it was: every
      callback armed again, once, in the same order. */
  lemma SelfRearming<K, C>(
      t: Table<K, C>, kind: string, key: K, cbs: seq<C>, behave: C -> seq<Registration<K, C>>, kd: string, k: K)
    requires key !in OfKind(t, kind)
    requires Distinct(cbs)
    requires forall cb :: cb in cbs ==> behave(cb) == [AddUpdater(kind, key, cb)]
    ensures ArmedAt(OfKind(RegisteredAll(t, Made(cbs, behave)), kd), k) ==
      if kd == kind && k == key then cbs else ArmedAt(OfKind(t, kd), k)
  {
    MadeBySelfRearming(kind, key, cbs, behave);
    if kd == kind && k == key {
      AdditionsAtKey(t, kind, key, cbs);
    } else {
      AdditionsElsewhere(t, kind, key, cbs, kd, k);
    }
  }

  /** No registration ever puts one callback twice into a list. */
  lemma RegisteredKeepsDistinct<K, C>(t: Table<K, C>, r: Registration<K, C>, kind: string, key: K)
    requires Distinct(ArmedAt(OfKind(t, kind), key))
    ensures Distinct(ArmedAt(OfKind(Registered(t, r), kind), key))
  {
    var list, list' := ArmedAt(OfKind(t, kind), key), ArmedAt(OfKind(Registered(t, r), kind), key);
    match r
    case SetUpdater(_, _, newest) =>
      if newest.Some? && list' == [newest.value] { assert Distinct(list'[..0]); }
    case AddUpdater(_, _, cb) =>
      if list' != list { assert list' == list + [cb] && list'[..|list'| - 1] == list; }
  }

  /** The lists of the keys, joined in order. */
  function Joined<K, C>(m: ListMap<K, C>, order: seq<K>): seq<C> {
    if order == [] then [] else Joined(m, order[..|order| - 1]) + ArmedAt(m, order[|order| - 1])
  }

  // ----------------------------------------------------------------- the class

  class Registry<K(==), C(==)> {
    var updaters: Table<K, C>

    constructor ()
      ensures updaters == map[]
    {
      updaters := map[];
    }

    method SetUpdater(kind: string, key: K, cb: Option<C>)
      modifies this
      ensures updaters == Registered(old(updaters), Registration.SetUpdater(kind, key, cb))
    {
      if kind !in updaters { updaters := updaters[kind := map[]]; }
      var list := if cb.Some? then [cb.value] else [];
      updaters := updaters[kind := updaters[kind][key := list]];
    }

    method AddUpdater(kind: string, key: K, cb: C)
      modifies this
      ensures updaters == Registered(old(updaters), Registration.AddUpdater(kind, key, cb))
    {
      if kind !in updaters { updaters := updaters[kind := map[]]; }
      var list := ArmedAt(updaters[kind], key);
      if cb !in list { list := list + [cb]; }
      updaters := updaters[kind := updaters[kind][key := list]];
    }

    /** Runs one callback, whose registrations are `rs`. */
    method Run(rs: seq<Registration<K, C>>)
      modifies this
      ensures updaters == RegisteredAll(old(updaters), rs)
    {
      for i := 0 to |rs|
        invariant updaters == RegisteredAll(old(updaters), rs[..i])
      {
        assert rs[..i + 1][..i] == rs[..i];
        match rs[i]
        case SetUpdater(kind, key, newest) => SetUpdater(kind, key, newest);
        case AddUpdater(kind, key, cb) => AddUpdater(kind, key, cb);
      }
      assert rs[..|rs|] == rs;
    }

    /** `runUpdaters(kind, key, ...)`, whatever the callbacks register meanwhile:
        it calls exactly the callbacks armed when it began, in order, once each,
        and leaves what they registered on top of the registry without that key. */
    method RunUpdaters(kind: string, key: K, behave: C -> seq<Registration<K, C>>) returns (ran: bool, called: seq<C>)
      modifies this
      ensures ran == (key in OfKind(old(updaters), kind))
      ensures called == ArmedAt(OfKind(old(updaters), kind), key)
      ensures updaters == if ran
        then RegisteredAll(old(updaters)[kind := old(updaters)[kind] - {key}], Made(called, behave))
        else old(updaters)
    {
      ran, called := false, [];
      if kind in updaters && key in updaters[kind] {
        ran := true;
        var list := updaters[kind][key];
        updaters := updaters[kind := updaters[kind] - {key}];
        CallAll(list, behave);
        called := list;
      }
    }

    /** `list.forEach(f => f(...))`. */
    method CallAll(list: seq<C>, behave: C -> seq<Registration<K, C>>)
      modifies this
      ensures updaters == RegisteredAll(old(updaters), Made(list, behave))
    {
      for i := 0 to |list|
        invariant updaters == RegisteredAll(old(updaters), Made(list[..i], behave))
      {
        assert list[..i + 1][..i] == list[..i];
        RegisteredConcat(old(updaters), Made(list[..i], behave), behave(list[i]));
        Run(behave(list[i]));
      }
      assert list[..|list|] == list;
    }

    /** `runUpdaters(kind)`: the whole kind is detached, and the lists of all its
        keys are called, each once, in the order of the dictionary. */
    method RunAllUpdaters(kind: string, behave: C -> seq<Registration<K, C>>)
      returns (ran: bool, called: seq<C>, ghost order: seq<K>)
      modifies this
      ensures ran == (kind in old(updaters))
      ensures (forall k :: k in order <==> k in OfKind(old(updaters), kind)) && Distinct(order)
      ensures called == Joined(OfKind(old(updaters), kind), order)
      ensures updaters == if ran then RegisteredAll(old(updaters) - {kind}, Made(called, behave)) else old(updaters)
    {
      ran, called, order := false, [], [];
      if kind in updaters {
        ran := true;
        var listMap, todo := updaters[kind], updaters[kind].Keys;
        updaters := updaters - {kind};
        ghost var detached := updaters;
        while todo != {}
          invariant todo <= listMap.Keys && (forall k :: k in order <==> k in listMap && k !in todo) && Distinct(order)
          invariant called == Joined(listMap, order)
          invariant updaters == RegisteredAll(detached, Made(called, behave))
          decreases todo
        {
          var k :| k in todo;
          todo := todo - {k};
          MadeConcat(called, listMap[k], behave);
          RegisteredConcat(detached, Made(called, behave), Made(listMap[k], behave));
          CallAll(listMap[k], behave);
          called := called + listMap[k];
          assert (order + [k])[..|order|] == order;
          order := order + [k];
        }
      }
    }
  }
}
