/** The resource store of src/resources.js.

    A run of the store is the log of its `changeFile` calls. What each kind's
    list and name index should hold is said about the log alone; the class
    `ResourceStore` updates its tables in place as the source does, and its
    invariant ties them to the log. */
module Resources {
  import opened Sequences
  import opened Documents

  /** One `changeFile(pathname, data)`; no data when the file is gone or unreadable. */
  datatype Change = Change(path: string, data: Option<Document>)

  type Log = seq<Change>

  // ---------------------------------------------------------------- the log

  /** What `files[path]` holds after the run. */
  function FileAt(log: Log, path: string): Option<Resource> {
    if log == [] then None
    else
      var i := |log| - 1;
      if log[i].path != path then FileAt(log[..i], path)
      else if log[i].data.Some? then Some(Resource(i, log[i].data.value))
      else None
  }

  /** The i-th change loaded a document that no later change replaced. */
  predicate Live(log: Log, i: nat)
    requires i < |log|
  {
    log[i].data.Some? && forall j :: i < j < |log| ==> log[j].path != log[i].path
  }

  /** The k-th change's own contribution to the list of a kind. */
  function Contribution(log: Log, kind: Kind, k: nat): seq<Resource>
    requires k < |log|
  {
    if Live(log, k) && log[k].data.value.kind == Some(kind) then [Resource(k, log[k].data.value)] else []
  }

  /** The documents of one kind loaded by the first n changes and still loaded
      at the end, in the order in which they were loaded. */
  function SurvivorsUpTo(log: Log, kind: Kind, n: nat): seq<Resource>
    requires n <= |log|
  {
    if n == 0 then [] else SurvivorsUpTo(log, kind, n - 1) + Contribution(log, kind, n - 1)
  }

  function Survivors(log: Log, kind: Kind): seq<Resource> {
    SurvivorsUpTo(log, kind, |log|)
  }

  predicate HasKind(r: Option<Resource>, kind: Kind) {
    r.Some? && r.value.doc.kind == Some(kind)
  }

  predicate Named(r: Option<Resource>, kind: Kind, name: string) {
    HasKind(r, kind) && r.value.doc.name == name && name != ""
  }

  /** The new resource that the last change of a log loads. */
  function Loaded(log: Log): Option<Resource>
    requires log != []
  {
    var i := |log| - 1;
    if log[i].data.Some? then Some(Resource(i, log[i].data.value)) else None
  }

  /** What the name index of a kind holds under a name after the run. */
  function Bound(log: Log, kind: Kind, name: string): Option<Resource> {
    if log == [] then None
    else
      var i := |log| - 1;
      if Named(Loaded(log), kind, name) then Loaded(log)
      else if Named(FileAt(log[..i], log[i].path), kind, name) then None
      else Bound(log[..i], kind, name)
  }

  // ------------------------------------------------------- facts about runs

  lemma {:induction false} SurvivorsAreFiles(log: Log, kind: Kind, n: nat, r: Resource)
    requires n <= |log|
    ensures r in SurvivorsUpTo(log, kind, n) <==>
      r.id < n && Live(log, r.id) && log[r.id].data == Some(r.doc) && r.doc.kind == Some(kind)
  {
    if n > 0 { SurvivorsAreFiles(log, kind, n - 1, r); }
  }

  lemma {:induction false} FileAtIsLive(log: Log, path: string, r: Resource)
    ensures FileAt(log, path) == Some(r) <==> r.id < |log| && Live(log, r.id) && log[r.id] == Change(path, Some(r.doc))
  {
    if log != [] {
      var i := |log| - 1;
      if log[i].path != path {
        FileAtIsLive(log[..i], path, r);
        if r.id < i {
          assert log == log[..i] + [log[i]];
          LiveStep(log[..i], log[i], r.id);
        }
      }
    }
  }

  /** One change removes what the path held before and appends what it holds now. */
  lemma LiveStep(log: Log, e: Change, k: nat)
    requires k < |log|
    ensures Live(log + [e], k) <==> Live(log, k) && log[k].path != e.path
  {
    var log' := log + [e];
    assert log'[|log|] == e && forall j :: 0 <= j < |log| ==> log'[j] == log[j];
  }

  lemma ContributionStep(log: Log, e: Change, kind: Kind, k: nat)
    requires k < |log|
    ensures Contribution(log + [e], kind, k) ==
      if Contribution(log, kind, k) != [] && FileAt(log, e.path) == Some(Contribution(log, kind, k)[0]) then []
      else Contribution(log, kind, k)
  {
    LiveStep(log, e, k);
    if Live(log, k) {
      FileAtIsLive(log, e.path, Resource(k, log[k].data.value));
    }
  }

  lemma {:induction false} SurvivorsStepUpTo(log: Log, e: Change, kind: Kind, n: nat, old': Option<Resource>)
    requires n <= |log| && old' == FileAt(log, e.path)
    ensures SurvivorsUpTo(log + [e], kind, n) ==
      if HasKind(old', kind) then Without(SurvivorsUpTo(log, kind, n), old'.value) else SurvivorsUpTo(log, kind, n)
  {
    if n > 0 {
      var k := n - 1;
      var s, t := SurvivorsUpTo(log, kind, k), Contribution(log, kind, k);
      var s', t' := SurvivorsUpTo(log + [e], kind, k), Contribution(log + [e], kind, k);
      SurvivorsStepUpTo(log, e, kind, k, old');
      ContributionStep(log, e, kind, k);
      assert SurvivorsUpTo(log, kind, n) == s + t && SurvivorsUpTo(log + [e], kind, n) == s' + t';
      if HasKind(old', kind) {
        var x := old'.value;
        SurvivorsAreFiles(log, kind, k, x);
        WithoutConcat(s, t, x);
        assert t' == if t == [x] then [] else t;
      } else {
        assert t' == t;
      }
    }
  }

  lemma SurvivorsStep(log: Log, e: Change, kind: Kind)
    ensures var old' := FileAt(log, e.path);
      Survivors(log + [e], kind) ==
      (if HasKind(old', kind) then Without(Survivors(log, kind), old'.value) else Survivors(log, kind)) +
      (if HasKind(Loaded(log + [e]), kind) then [Loaded(log + [e]).value] else [])
  {
    SurvivorsStepUpTo(log, e, kind, |log|, FileAt(log, e.path));
  }

  // ------------------------------------------------- list and index agreement

  /** `find` returns precisely the one list entry with the name, or null. */
  ghost predicate Agreement(log: Log, kind: Kind) {
    forall name: string, r: Resource :: name != "" ==>
      (Bound(log, kind, name) == Some(r) <==> r in Survivors(log, kind) && r.doc.name == name)
  }

  /** No file other than the changed one already uses the name it now loads. */
  predicate NameFree(log: Log, e: Change, kind: Kind) {
    HasKind(Loaded(log + [e]), kind) && Loaded(log + [e]).value.doc.name != "" ==>
      forall r :: r in Survivors(log, kind) && r.doc.name == Loaded(log + [e]).value.doc.name ==>
        FileAt(log, e.path) == Some(r)
  }

  /** Membership in the list after one change. */
  lemma SurvivorsStepMember(log: Log, e: Change, kind: Kind, r: Resource)
    ensures r in Survivors(log + [e], kind) <==>
      (r in Survivors(log, kind) && FileAt(log, e.path) != Some(r)) ||
      (HasKind(Loaded(log + [e]), kind) && Loaded(log + [e]) == Some(r))
  {
    var log' := log + [e];
    SurvivorsAreFiles(log', kind, |log'|, r);
    SurvivorsAreFiles(log, kind, |log|, r);
    if r.id < |log| {
      LiveStep(log, e, r.id);
      FileAtIsLive(log, e.path, r);
    }
  }

  lemma AgreementStepAt(log: Log, e: Change, kind: Kind, name: string, r: Resource)
    requires Agreement(log, kind) && NameFree(log, e, kind) && name != ""
    ensures Bound(log + [e], kind, name) == Some(r) <==> r in Survivors(log + [e], kind) && r.doc.name == name
  {
    var log', old', cur := log + [e], FileAt(log, e.path), Loaded(log + [e]);
    assert log'[..|log|] == log && log'[|log|] == e;
    assert Bound(log', kind, name) ==
      if Named(cur, kind, name) then cur else if Named(old', kind, name) then None else Bound(log, kind, name);
    SurvivorsStepMember(log, e, kind, r);
    SurvivorsAreFiles(log, kind, |log|, r);
    if !Named(cur, kind, name) && Named(old', kind, name) {
      FileAtIsLive(log, e.path, old'.value);
      SurvivorsAreFiles(log, kind, |log|, old'.value);
      assert Bound(log, kind, name) == old';
    }
  }

  /** From an agreeing state, one change keeps the agreement exactly when the
      name it loads is not in use by another file. */
  lemma AgreementStep(log: Log, e: Change, kind: Kind)
    requires Agreement(log, kind)
    ensures Agreement(log + [e], kind) <==> NameFree(log, e, kind)
  {
    var log', cur := log + [e], Loaded(log + [e]);
    if NameFree(log, e, kind) {
      forall name: string, r: Resource | name != ""
        ensures Bound(log', kind, name) == Some(r) <==> r in Survivors(log', kind) && r.doc.name == name
      {
        AgreementStepAt(log, e, kind, name, r);
      }
    } else {
      var r :| r in Survivors(log, kind) && r.doc.name == cur.value.doc.name && FileAt(log, e.path) != Some(r);
      SurvivorsStepMember(log, e, kind, r);
      SurvivorsAreFiles(log, kind, |log|, r);
      assert Bound(log', kind, r.doc.name) == cur && cur != Some(r);
    }
  }

  /** The index agrees with the list in every state of the run. */
  ghost predicate AgreesThroughout(log: Log, kind: Kind) {
    Agreement(log, kind) && (log == [] || AgreesThroughout(log[..|log| - 1], kind))
  }

  /** Every change of the run loads a name that is free at that moment. */
  predicate NamesFreeThroughout(log: Log, kind: Kind) {
    log == [] || (NamesFreeThroughout(log[..|log| - 1], kind) && NameFree(log[..|log| - 1], log[|log| - 1], kind))
  }

  /** Over a whole run: the index agrees with the list in every state exactly
      when every change loaded a name that was free. */
  lemma {:induction false} AgreementOverRuns(log: Log, kind: Kind)
    ensures AgreesThroughout(log, kind) <==> NamesFreeThroughout(log, kind)
  {
    if log != [] {
      var init, e := log[..|log| - 1], log[|log| - 1];
      assert log == init + [e];
      AgreementOverRuns(init, kind);
      if AgreesThroughout(init, kind) { AgreementStep(init, e, kind); }
    }
  }

  /** Two files that trade names one after the other leave both loaded under
      unique names, and yet one of the names is no longer found. */
  lemma NameSwapLosesBinding(kind: Kind, blank: Document)
    requires blank.kind == Some(kind)
    ensures var x, y := blank.(name := "x"), blank.(name := "y");
      var log := [Change("a", Some(x)), Change("b", Some(y)), Change("a", Some(y)), Change("b", Some(x))];
      Survivors(log, kind) == [Resource(2, y), Resource(3, x)] && Bound(log, kind, "y") == None
  {
    var x, y := blank.(name := "x"), blank.(name := "y");
    var log1 := [Change("a", Some(x))];
    var log2 := log1 + [Change("b", Some(y))];
    var log3 := log2 + [Change("a", Some(y))];
    var log4 := log3 + [Change("b", Some(x))];
    assert log4[..3] == log3 && log3[..2] == log2 && log2[..1] == log1;
    assert FileAt(log3, "b") == FileAt(log2, "b") == Some(Resource(1, y));
    assert log4[2].path == log4[0].path && log4[3].path == log4[1].path;
    assert !Live(log4, 0) && !Live(log4, 1) && Live(log4, 2) && Live(log4, 3);
    assert SurvivorsUpTo(log4, kind, 1) == [];
    assert SurvivorsUpTo(log4, kind, 2) == [];
    assert SurvivorsUpTo(log4, kind, 3) == [Resource(2, y)];
    assert log4 == [Change("a", Some(x)), Change("b", Some(y)), Change("a", Some(y)), Change("b", Some(x))];
  }

  /** The document is not of kind `Route`. One that is makes a flush call the
      updaters of all routers with the document in place of a listener. */
  predicate NotOfKindRoute(e: Change) {
    e.data.Some? ==> e.data.value.kind != Some(ROUTE)
  }

  ghost predicate RouteKindFree(log: Log) {
    forall i :: 0 <= i < |log| ==> NotOfKindRoute(log[i])
  }

  /** The file parses to a resource with a kind, or to nothing. */
  predicate Kinded(e: Change) {
    e.data.Some? ==> e.data.value.kind.Some?
  }

  ghost predicate AllKinded(log: Log) {
    forall i :: 0 <= i < |log| ==> Kinded(log[i])
  }

  // ------------------------------------------------------------ notifications

  /** The arguments of one `onResourceChange(newResource, oldResource)` call. */
  datatype Notice = Notice(newResource: Option<Resource>, oldResource: Option<Resource>)

  function KindOf(r: Option<Resource>): Option<Kind> {
    if r.Some? then r.value.doc.kind else None
  }

  /** The notifications that `changeFile` sends, in order. */
  function NoticesBetween(old': Option<Resource>, cur: Option<Resource>): seq<Notice> {
    if KindOf(cur).Some? && KindOf(cur) == KindOf(old') then [Notice(cur, old')]
    else if KindOf(cur).Some? && KindOf(old').Some? then [Notice(None, old'), Notice(cur, None)]
    else if cur.Some? then [Notice(cur, None)]
    else if old'.Some? then [Notice(None, old')]
    else []
  }

  function NoticesOf(log: Log, e: Change): seq<Notice> {
    NoticesBetween(FileAt(log, e.path), Loaded(log + [e]))
  }

  // ---------------------------------------------------------- the store itself

  datatype KindTable = KindTable(list: seq<Resource>, dict: map<string, Resource>)

  class ResourceStore {
    var files: map<string, Resource>
    var resourceMap: map<Kind, KindTable>
    /** Number of objects parsed so far: the identity of the next one. */
    var parsed: nat
    ghost var log: Log

    /** The tables hold what the log of calls says they should. */
    ghost predicate Valid()
      reads this
    {
      && parsed == |log|
      && (forall path :: FileAt(log, path) == if path in files then Some(files[path]) else None)
      && (forall kind :: List(kind) == Survivors(log, kind))
      && (forall kind, name :: Find(kind, name) == Bound(log, kind, name))
    }

    constructor ()
      ensures Valid() && log == []
    {
      files, resourceMap, parsed, log := map[], map[], 0, [];
    }

    function List(kind: Kind): seq<Resource>
      reads this`resourceMap
    {
      if kind in resourceMap then resourceMap[kind].list else []
    }

    function Find(kind: Kind, name: string): Option<Resource>
      reads this`resourceMap
    {
      if kind in resourceMap && name in resourceMap[kind].dict then Some(resourceMap[kind].dict[name]) else None
    }

    method AppendResource(r: Resource)
      modifies this`resourceMap
      ensures forall kind :: List(kind) == old(List(kind)) + if r.doc.kind == Some(kind) then [r] else []
      ensures forall kind, name :: Find(kind, name) == if Named(Some(r), kind, name) then Some(r)
        else old(Find(kind, name))
    {
      if r.doc.kind.Some? {
        var kind := r.doc.kind.value;
        var table := if kind in resourceMap then resourceMap[kind] else KindTable([], map[]);
        if r.doc.name != "" {
          table := table.(dict := table.dict[r.doc.name := r]);
        }
        table := table.(list := table.list + [r]);
        resourceMap := resourceMap[kind := table];
      }
    }

    method RemoveResource(r: Resource)
      modifies this`resourceMap
      ensures forall kind :: List(kind) == if r.doc.kind == Some(kind) then Without(old(List(kind)), r)
        else old(List(kind))
      ensures forall kind, name :: Find(kind, name) == if Named(Some(r), kind, name) then None
        else old(Find(kind, name))
    {
      if r.doc.kind.Some? && r.doc.kind.value in resourceMap {
        var kind := r.doc.kind.value;
        var table := resourceMap[kind];
        var i := IndexOf(table.list, r);
        if r.doc.name != "" {
          table := table.(dict := table.dict - {r.doc.name});
        }
        if i >= 0 {
          table := table.(list := table.list[..i] + table.list[i + 1..]);
        }
        assert table.list == Without(resourceMap[kind].list, r);
        resourceMap := resourceMap[kind := table];
      }
    }

    /** The second half of `changeFile`: record the file and pick the notifications. */
    method RecordFile(path: string, old': Option<Resource>, cur: Option<Resource>) returns (notices: seq<Notice>)
      requires old' == if path in files then Some(files[path]) else None
      modifies this`files
      ensures files == if cur.Some? then old(files)[path := cur.value] else old(files) - {path}
      ensures notices == NoticesBetween(old', cur)
    {
      var oldKind := if old'.Some? then old'.value.doc.kind else None;
      var curKind := if cur.Some? then cur.value.doc.kind else None;
      if curKind.Some? && curKind == oldKind {
        files := files[path := cur.value];
        notices := [Notice(cur, old')];
      } else if curKind.Some? && oldKind.Some? {
        files := files[path := cur.value];
        notices := [Notice(None, old'), Notice(cur, None)];
      } else if cur.Some? {
        files := files[path := cur.value];
        notices := [Notice(cur, None)];
      } else if old'.Some? {
        files := files - {path};
        notices := [Notice(None, old')];
      } else {
        notices := [];
      }
    }

    /** `changeFile(pathname, data)`. */
    method ChangeFile(path: string, data: Option<Document>) returns (notices: seq<Notice>)
      requires Valid()
      modifies this
      ensures Valid() && log == old(log) + [Change(path, data)]
      ensures notices == NoticesOf(old(log), Change(path, data))
    {
      var old' := if path in files then Some(files[path]) else None;
      var cur := if data.Some? then Some(Resource(parsed, data.value)) else None;
      parsed := parsed + 1;
      if old'.Some? { RemoveResource(old'.value); }
      if cur.Some? { AppendResource(cur.value); }
      notices := RecordFile(path, old', cur);
      ghost var e := Change(path, data);
      ghost var log' := log + [e];
      assert log'[..|log|] == log && log'[|log|] == e && Loaded(log') == cur;
      forall p
        ensures FileAt(log', p) == if p in files then Some(files[p]) else None
      {
        assert FileAt(log', p) == if p == path then cur else FileAt(log, p);
      }
      forall kind
        ensures List(kind) == Survivors(log', kind)
      {
        SurvivorsStep(log, e, kind);
      }
      forall kind, name
        ensures Find(kind, name) == Bound(log', kind, name)
      {
        assert Bound(log', kind, name) ==
          if Named(cur, kind, name) then cur else if Named(old', kind, name) then None else Bound(log, kind, name);
      }
      log := log';
    }
  }
}
