/** Flattening the hooks of nested blueprints under dotted names, so that a request needs one lookup. */
module Blueprints {
  import opened Wrappers

  type Hook(==)

  const DOT: char := '.'

  /** A blueprint with its own hooks and the blueprints registered on it, in order. */
  datatype Blueprint = Blueprint(name: string, hooks: seq<Hook>, children: seq<Blueprint>)

  datatype Entry = Entry(key: string, hooks: seq<Hook>)

  /** A Python `dict` of hooks by dotted descendant path, in insertion order. */
  type Table = seq<Entry>

  function Get(t: Table, key: string): Option<seq<Hook>> {
    if t == [] then None
    else if t[|t| - 1].key == key then Some(t[|t| - 1].hooks)
    else Get(t[..|t| - 1], key)
  }

  /** `t[key] = hooks`; a key already present keeps its place. */
  function Put(t: Table, key: string, hooks: seq<Hook>): Table {
    if Get(t, key).None? then t + [Entry(key, hooks)]
    else if t[|t| - 1].key == key then t[..|t| - 1] + [Entry(key, hooks)]
    else Put(t[..|t| - 1], key, hooks) + [t[|t| - 1]]
  }

  lemma {:induction false} GetPut(t: Table, key: string, hooks: seq<Hook>, k: string)
    ensures Get(Put(t, key, hooks), k) == if k == key then Some(hooks) else Get(t, k)
  {
    var r := Put(t, key, hooks);
    if Get(t, key).None? {
      assert r[..|r| - 1] == t;
    } else {
      var front := t[..|t| - 1];
      if t[|t| - 1].key == key {
        assert r[..|r| - 1] == front;
      } else {
        GetPut(front, key, hooks, k);
        assert r[..|r| - 1] == Put(front, key, hooks);
      }
    }
  }

  /** `f"{name}.{suffix}"` */
  function Under(name: string, suffix: string): string {
    name + [DOT] + suffix
  }

  function MergeItems(dst: Table, name: string, items: seq<Entry>): Table {
    if items == [] then dst
    else
      var last := items[|items| - 1];
      Put(MergeItems(dst, name, items[..|items| - 1]), Under(name, last.key), last.hooks)
  }

  /** The child under its bare name, each of its descendants under its dotted one. */
  function Merged(dst: Table, own: seq<Hook>, scoped: Table, name: string): Table {
    MergeItems(Put(dst, name, own), name, scoped)
  }

  /** `_merge_scoped_lists` */
  method MergeScopedLists(dst: Table, own: seq<Hook>, scoped: Table, name: string) returns (r: Table)
    ensures r == Merged(dst, own, scoped, name)
  {
    r := Put(dst, name, own);
    for i := 0 to |scoped|
      invariant r == MergeItems(Put(dst, name, own), name, scoped[..i])
    {
      assert scoped[..i + 1][..i] == scoped[..i];
      r := Put(r, Under(name, scoped[i].key), scoped[i].hooks);
    }
    assert scoped[..|scoped|] == scoped;
  }

  /** What `register_blueprint` has merged once the children are registered, each complete before it is. */
  function Scoped(children: seq<Blueprint>): Table {
    if children == [] then []
    else
      var last := children[|children| - 1];
      Merged(Scoped(children[..|children| - 1]), last.hooks, Scoped(last.children), last.name)
  }

  // ---- Dotted names ---------------------------------------------------------

  predicate Plain(name: string) {
    DOT !in name
  }

  predicate AllPlain(path: seq<string>) {
    forall i :: 0 <= i < |path| ==> Plain(path[i])
  }

  /** `".".join(path)` */
  function Dotted(path: seq<string>): string {
    if path == [] then [] else if |path| == 1 then path[0] else Under(path[0], Dotted(path[1..]))
  }

  /** `s.split(".")` */
  function Split(s: string): (parts: seq<string>)
    ensures parts != []
    decreases |s|
  {
    if s == [] then [[]]
    else
      var rest := Split(s[1..]);
      if s[0] == DOT then [[]] + rest else [[s[0]] + rest[0]] + rest[1..]
  }

  lemma {:induction false} SplitUnder(name: string, suffix: string)
    requires Plain(name)
    ensures Split(Under(name, suffix)) == [name] + Split(suffix)
  {
    if name == [] {
      assert Under(name, suffix)[1..] == suffix;
    } else {
      SplitUnder(name[1..], suffix);
      assert Under(name, suffix)[1..] == Under(name[1..], suffix);
      assert [name[0]] + name[1..] == name;
      assert ([name[1..]] + Split(suffix))[1..] == Split(suffix);
    }
  }

  lemma {:induction false} SplitPlain(name: string)
    requires Plain(name)
    ensures Split(name) == [name]
  {
    if name != [] {
      SplitPlain(name[1..]);
      assert [name[0]] + name[1..] == name;
    }
  }

  /** Splitting undoes joining, as long as no name carries a dot. */
  lemma {:induction false} SplitDotted(path: seq<string>)
    requires path != [] && AllPlain(path)
    ensures Split(Dotted(path)) == path
  {
    if |path| == 1 {
      SplitPlain(path[0]);
    } else {
      SplitDotted(path[1..]);
      SplitUnder(path[0], Dotted(path[1..]));
    }
  }

  // ---- The table against the tree -------------------------------------------

  predicate TreeOk(children: seq<Blueprint>) {
    forall i | 0 <= i < |children| :: Plain(children[i].name) && TreeOk(children[i].children)
  }

  /** The hooks a path of child names leads to; the blueprint registered last under a name wins. */
  function OwnAt(children: seq<Blueprint>, path: seq<string>): Option<seq<Hook>>
    requires path != []
    decreases children, |children|
  {
    if children == [] then None
    else
      var last := children[|children| - 1];
      var found :=
        if last.name != path[0] then None
        else if |path| == 1 then Some(last.hooks)
        else OwnAt(last.children, path[1..]);
      if found.Some? then found else OwnAt(children[..|children| - 1], path)
  }

  lemma UnderInjective(name: string, j: string, k: string)
    ensures Under(name, j) == Under(name, k) ==> j == k
  {
    assert Under(name, j)[|name| + 1..] == j && Under(name, k)[|name| + 1..] == k;
  }

  /** A descendant of the child just merged. */
  lemma {:induction false} MergeItemsAt(dst: Table, name: string, items: seq<Entry>, k: string)
    ensures Get(MergeItems(dst, name, items), Under(name, k))
      == if Get(items, k).Some? then Get(items, k) else Get(dst, Under(name, k))
  {
    if items != [] {
      var front, last := items[..|items| - 1], items[|items| - 1];
      MergeItemsAt(dst, name, front, k);
      GetPut(MergeItems(dst, name, front), Under(name, last.key), last.hooks, Under(name, k));
      UnderInjective(name, k, last.key);
    }
  }

  /** Anything else is left alone. */
  lemma {:induction false} MergeItemsElsewhere(dst: Table, name: string, items: seq<Entry>, key: string)
    requires forall i :: 0 <= i < |items| ==> key != Under(name, items[i].key)
    ensures Get(MergeItems(dst, name, items), key) == Get(dst, key)
  {
    if items != [] {
      var front, last := items[..|items| - 1], items[|items| - 1];
      MergeItemsElsewhere(dst, name, front, key);
      GetPut(MergeItems(dst, name, front), Under(name, last.key), last.hooks, key);
    }
  }

  lemma PlainKeyElsewhere(name: string, suffix: string, path: seq<string>)
    requires Plain(name) && path != [] && AllPlain(path)
    ensures Under(name, suffix) == Dotted(path) ==> |path| > 1 && path[0] == name
  {
    SplitDotted(path);
    SplitUnder(name, suffix);
  }

  /** One dotted key in a merged table. */
  lemma MergedAt(dst: Table, own: seq<Hook>, scoped: Table, name: string, path: seq<string>)
    requires Plain(name) && path != [] && AllPlain(path)
    ensures var found :=
        if name != path[0] then None else if |path| == 1 then Some(own) else Get(scoped, Dotted(path[1..]));
      Get(Merged(dst, own, scoped, name), Dotted(path)) == if found.Some? then found else Get(dst, Dotted(path))
  {
    var key := Dotted(path);
    GetPut(dst, name, own, key);
    SplitDotted(path);
    SplitPlain(name);
    if |path| > 1 && path[0] == name {
      MergeItemsAt(Put(dst, name, own), name, scoped, Dotted(path[1..]));
    } else {
      forall i | 0 <= i < |scoped|
        ensures key != Under(name, scoped[i].key)
      {
        PlainKeyElsewhere(name, scoped[i].key, path);
      }
      MergeItemsElsewhere(Put(dst, name, own), name, scoped, key);
    }
  }

  /** The flattened table answers every path as the tree of blueprints does. */
  lemma {:induction false} ScopedExact(children: seq<Blueprint>, path: seq<string>)
    requires TreeOk(children) && path != [] && AllPlain(path)
    ensures Get(Scoped(children), Dotted(path)) == OwnAt(children, path)
    decreases children, |children|
  {
    if children != [] {
      var front, last := children[..|children| - 1], children[|children| - 1];
      assert forall i :: 0 <= i < |front| ==> front[i] == children[i];
      ScopedExact(front, path);
      if |path| > 1 {
        ScopedExact(last.children, path[1..]);
      }
      MergedAt(Scoped(front), last.hooks, Scoped(last.children), last.name, path);
    }
  }

  // ---- The chain of a route -------------------------------------------------

  function OrNothing(hooks: Option<seq<Hook>>): seq<Hook> {
    if hooks.Some? then hooks.value else []
  }

  /** The hooks found under the first `n` prefixes of a path. */
  function Along(t: Table, path: seq<string>, n: nat): seq<Hook>
    requires n <= |path|
  {
    if n == 0 then [] else Along(t, path, n - 1) + OrNothing(Get(t, Dotted(path[..n])))
  }

  /** `_resolve_scoped_chain` */
  method ResolveScopedChain(own: seq<Hook>, scoped: Table, suffix: string) returns (chain: seq<Hook>)
    ensures chain == own + Along(scoped, Split(suffix), |Split(suffix)|)
  {
    chain := own;
    var parts := Split(suffix);
    for depth := 0 to |parts|
      invariant chain == own + Along(scoped, parts, depth)
    {
      var key := Dotted(parts[..depth + 1]);
      var found := Get(scoped, key);
      assert Along(scoped, parts, depth + 1) == Along(scoped, parts, depth) + OrNothing(found);
      if found.Some? {
        chain := chain + found.value;
      }
    }
  }

  /** The same, read off the tree: each blueprint on the way down, outermost first. */
  function HooksDown(children: seq<Blueprint>, path: seq<string>, n: nat): seq<Hook>
    requires n <= |path|
  {
    if n == 0 then [] else HooksDown(children, path, n - 1) + OrNothing(OwnAt(children, path[..n]))
  }

  lemma {:induction false} AlongIsDown(children: seq<Blueprint>, path: seq<string>, n: nat)
    requires TreeOk(children) && AllPlain(path) && n <= |path|
    ensures Along(Scoped(children), path, n) == HooksDown(children, path, n)
  {
    if n > 0 {
      AlongIsDown(children, path, n - 1);
      ScopedExact(children, path[..n]);
    }
  }

  /** A route of a nested blueprint runs the hooks of every blueprint above it, outermost first, and no others. */
  lemma OutermostFirst(bp: Blueprint, path: seq<string>)
    requires TreeOk(bp.children) && path != [] && AllPlain(path)
    ensures var parts := Split(Dotted(path));
      bp.hooks + Along(Scoped(bp.children), parts, |parts|) == bp.hooks + HooksDown(bp.children, path, |path|)
  {
    SplitDotted(path);
    AlongIsDown(bp.children, path, |path|);
  }

  /** `endpoint.rfind(".")`; -1 for none. */
  function LastDot(s: string): (i: int)
    ensures -1 <= i < |s|
  {
    if s == [] then -1 else if s[|s| - 1] == DOT then |s| - 1 else LastDot(s[..|s| - 1])
  }

  /** `_endpoint_blueprint` */
  function EndpointBlueprint(endpoint: string): Option<string> {
    if endpoint == [] || LastDot(endpoint) < 0 then None else Some(endpoint[..LastDot(endpoint)])
  }

  lemma {:induction false} LastDotBefore(head: string, route: string)
    requires Plain(route)
    ensures LastDot(Under(head, route)) == |head|
  {
    var s := Under(head, route);
    if route != [] {
      assert s[..|s| - 1] == Under(head, route[..|route| - 1]);
      LastDotBefore(head, route[..|route| - 1]);
    }
  }

  lemma {:induction false} DottedLast(path: seq<string>, route: string)
    requires path != []
    ensures Dotted(path + [route]) == Under(Dotted(path), route)
  {
    var all := path + [route];
    if |path| == 1 {
      assert all[1..] == [route];
    } else {
      assert all[1..] == path[1..] + [route];
      DottedLast(path[1..], route);
    }
  }

  /** A route whose name has no dot finds the blueprint it was declared on. */
  lemma EndpointFindsBlueprint(path: seq<string>, route: string)
    requires path != [] && Plain(route)
    ensures EndpointBlueprint(Dotted(path + [route])) == Some(Dotted(path))
  {
    DottedLast(path, route);
    LastDotBefore(Dotted(path), route);
    assert Under(Dotted(path), route)[..|Dotted(path)|] == Dotted(path);
  }
}
