/** Router scopes: groups copy their parent's middleware, Use appends to a scope's slice, and a
    registered route reads its scope's slice when it is dispatched.

    A Go slice is an array with a length; its capacity is the array's length, and append
    writes in place whenever the capacity suffices. */
module Routing {
  type Middleware = nat

  // ---- slices ----

  class Router {
    var prefix: string
    var cells: array<Middleware>
    var len: nat

    /** A scope whose slice is new and has room for exactly its elements. */
    constructor (prefix: string, inherited: seq<Middleware>, own: seq<Middleware>)
      ensures this.prefix == prefix && fresh(cells)
      ensures Valid() && List() == inherited + own
    {
      this.prefix := prefix;
      var combined := inherited + own;
      cells := new Middleware[|combined|](i requires 0 <= i < |combined| => combined[i]);
      len := |combined|;
    }

    /** The scope of the server itself. */
    constructor Root()
      ensures prefix == "" && len == 0 && fresh(cells)
    {
      prefix := "";
      cells := new Middleware[0];
      len := 0;
    }

    predicate Valid()
      reads this
    {
      len <= cells.Length
    }

    function List(): seq<Middleware>
      requires Valid()
      reads this, cells
    {
      cells[..len]
    }

    /** append(r.middleware, mws...); `slack` is the spare capacity the runtime would choose
        were the array to be replaced. */
    method Use(mws: seq<Middleware>, slack: nat)
      requires Valid()
      modifies this, cells
      ensures Valid() && List() == old(List()) + mws
      ensures prefix == old(prefix) && (cells == old(cells) || fresh(cells))
    {
      var total := len + |mws|;
      if total > cells.Length {
        var kept := cells[..len];
        var grown := new Middleware[total + slack](i => if 0 <= i < |kept| then kept[i] else 0);
        cells := grown;
      }
      var i := 0;
      while i < |mws|
        invariant 0 <= i <= |mws| && len == old(len) && total <= cells.Length
        invariant cells == old(cells) || fresh(cells)
        invariant prefix == old(prefix)
        invariant cells[..len] == old(List()) && cells[len..len + i] == mws[..i]
      {
        cells[len + i] := mws[i];
        i := i + 1;
      }
      len := total;
      assert cells[..total] == cells[..old(len)] + cells[old(len)..total];
    }
  }

  // ---- programs of Group, Use and Handle ----

  datatype Command =
    | Group(parent: nat, groupPrefix: string, own: seq<Middleware>)
    | Use(scope: nat, mws: seq<Middleware>)
    | Handle(scope: nat, httpMethod: string, path: string, handler: nat)

  /** A scope as it stands, and a registered route. */
  datatype Scope = Scope(prefix: string, list: seq<Middleware>)
  datatype Route = Route(httpMethod: string, fullPath: string, scope: nat, handler: nat)

  datatype Table = Table(scopes: seq<Scope>, routes: seq<Route>)

  const ROOT: Table := Table([Scope("", [])], [])

  predicate Applicable(t: Table, c: Command) {
    if c.Group? then c.parent < |t.scopes| else c.scope < |t.scopes|
  }

  function Execute(t: Table, c: Command): Table
    requires Applicable(t, c)
  {
    match c
    case Group(p, prefix, own) =>
      t.(scopes := t.scopes + [Scope(t.scopes[p].prefix + prefix, t.scopes[p].list + own)])
    case Use(s, mws) => t.(scopes := t.scopes[s := t.scopes[s].(list := t.scopes[s].list + mws)])
    case Handle(s, m, path, h) => t.(routes := t.routes + [Route(m, t.scopes[s].prefix + path, s, h)])
  }

  predicate AllApplicable(t: Table, prog: seq<Command>)
    decreases |prog|
  {
    prog == [] || (Applicable(t, prog[0]) && AllApplicable(Execute(t, prog[0]), prog[1..]))
  }

  function ExecuteAll(t: Table, prog: seq<Command>): Table
    requires AllApplicable(t, prog)
    decreases |prog|
  {
    if prog == [] then t else ExecuteAll(Execute(t, prog[0]), prog[1..])
  }

  /** What runs for a request, in order: middleware, then the handler. */
  datatype Act = Mw(id: Middleware) | Handler(h: nat)

  function Wrap(mws: seq<Middleware>, inner: seq<Act>): seq<Act> {
    if mws == [] then inner else [Mw(mws[0])] + Wrap(mws[1..], inner)
  }

  datatype RouteRef = RouteRef(httpMethod: string, fullPath: string, router: Router, scope: nat, handler: nat)

  /** A server with its routers, in order of creation, and the closures registered so far. */
  class App {
    const server: seq<Middleware>
    var routers: seq<Router>
    var routes: seq<RouteRef>
    /** The routers and their arrays. */
    ghost var repr: set<object>

    constructor (server: seq<Middleware>)
      ensures Valid() && ToTable() == ROOT && this.server == server
      ensures fresh(repr)
    {
      var root := new Router.Root();
      assert fresh(root.cells);
      ghost var footprint: set<object> := {root, root.cells};
      assert fresh(footprint);
      this.server := server;
      routers := [root];
      routes := [];
      repr := footprint;
      new;
      StartsAtRoot(root);
    }

    lemma StartsAtRoot(root: Router)
      requires routers == [root] && routes == [] && root in repr && root.cells in repr && this !in repr
      requires root.prefix == "" && root.len == 0
      ensures Valid() && ToTable() == ROOT
    {
      assert ToTable().scopes == [Scope("", [])];
    }

    /** No two routers share a slice's array. */
    ghost predicate Valid()
      reads this, repr
    {
      && this !in repr
      && (forall i :: 0 <= i < |routers| ==> routers[i] in repr && routers[i].cells in repr && routers[i].Valid())
      && (forall i, j :: 0 <= i < j < |routers| ==>
            routers[i] != routers[j] && routers[i].cells != routers[j].cells)
      && (forall k :: 0 <= k < |routes| ==>
            routes[k].scope < |routers| && routes[k].router == routers[routes[k].scope])
    }

    ghost function ToTable(): (t: Table)
      requires Valid()
      reads this, repr
      ensures |t.scopes| == |routers| && |t.routes| == |routes|
      ensures forall i :: 0 <= i < |routers| ==> t.scopes[i] == Scope(routers[i].prefix, routers[i].List())
      ensures t.routes == RoutesOf(routes)
    {
      Table(Scopes(routers), RoutesOf(routes))
    }

    method DoGroup(parent: nat, prefix: string, own: seq<Middleware>)
      requires Valid() && parent < |routers|
      modifies this
      ensures Valid() && ToTable() == Execute(old(ToTable()), Group(parent, prefix, own))
      ensures fresh(repr - old(repr))
    {
      var p := routers[parent];
      var r := new Router(p.prefix + prefix, p.List(), own);
      routers := routers + [r];
      repr := repr + {r, r.cells};
    }

    method DoUse(scope: nat, mws: seq<Middleware>, slack: nat)
      requires Valid() && scope < |routers|
      modifies this`repr, routers[scope], routers[scope].cells
      ensures Valid() && ToTable() == Execute(old(ToTable()), Use(scope, mws))
      ensures fresh(repr - old(repr))
    {
      routers[scope].Use(mws, slack);
      repr := repr + {routers[scope].cells};
    }

    method DoHandle(scope: nat, httpMethod: string, path: string, handler: nat)
      requires Valid() && scope < |routers|
      modifies this`routes
      ensures Valid() && ToTable() == Execute(old(ToTable()), Handle(scope, httpMethod, path, handler))
    {
      var r := routers[scope];
      routes := routes + [RouteRef(httpMethod, r.prefix + path, r, scope, handler)];
    }

    method Do(c: Command, slack: nat)
      requires Valid() && Applicable(ToTable(), c)
      modifies this, repr
      ensures Valid() && ToTable() == Execute(old(ToTable()), c)
      ensures fresh(repr - old(repr))
    {
      match c
      case Group(p, prefix, own) => DoGroup(p, prefix, own);
      case Use(s, mws) => DoUse(s, mws, slack);
      case Handle(s, m, path, h) => DoHandle(s, m, path, h);
    }

    /** Any program of calls, whatever spare capacity the runtime leaves in the slices. */
    method Perform(prog: seq<Command>, slacks: seq<nat>)
      requires Valid() && AllApplicable(ToTable(), prog) && |slacks| == |prog|
      modifies this, repr
      ensures Valid() && ToTable() == ExecuteAll(old(ToTable()), prog)
      ensures fresh(repr - old(repr))
    {
      var i := 0;
      while i < |prog|
        invariant 0 <= i <= |prog| && Valid() && AllApplicable(ToTable(), prog[i..])
        invariant ExecuteAll(ToTable(), prog[i..]) == ExecuteAll(old(ToTable()), prog)
        invariant fresh(repr - old(repr))
      {
        assert prog[i..][0] == prog[i] && prog[i..][1..] == prog[i + 1..];
        Do(prog[i], slacks[i]);
        i := i + 1;
      }
    }

    /** The registered closure: it reads the router's slice now, chains it around the handler
        from the last to the first, and lets the server's chain run around that. */
    method Dispatch(k: nat) returns (trace: seq<Act>)
      requires Valid() && k < |routes|
      ensures trace == Dispatched(server, ToTable(), k)
      ensures InOrder(trace, server, routes[k].router.List(), routes[k].handler)
    {
      var r := routes[k].router;
      var inner := [Handler(routes[k].handler)];
      if r.len > 0 {
        inner := Chain(r.List(), inner);
      }
      trace := Chain(server, inner);
      DispatchedInOrder(server, ToTable(), k);
    }
  }

  /** kratos middleware.Chain: wraps from the last middleware to the first. */
  method Chain(mws: seq<Middleware>, inner: seq<Act>) returns (trace: seq<Act>)
    ensures trace == Wrap(mws, inner)
  {
    trace := inner;
    var i := |mws|;
    while i > 0
      invariant 0 <= i <= |mws| && trace == Wrap(mws[i..], inner)
    {
      i := i - 1;
      trace := [Mw(mws[i])] + trace;
      assert mws[i..][1..] == mws[i + 1..];
    }
    assert mws[0..] == mws;
  }

  function RoutesOf(refs: seq<RouteRef>): (r: seq<Route>)
    ensures |r| == |refs|
    ensures forall k :: 0 <= k < |refs| ==>
              r[k] == Route(refs[k].httpMethod, refs[k].fullPath, refs[k].scope, refs[k].handler)
  {
    seq(|refs|, k requires 0 <= k < |refs| =>
      Route(refs[k].httpMethod, refs[k].fullPath, refs[k].scope, refs[k].handler))
  }

  ghost function Scopes(routers: seq<Router>): (s: seq<Scope>)
    requires forall i :: 0 <= i < |routers| ==> routers[i].Valid()
    reads routers, set i | 0 <= i < |routers| :: routers[i].cells
    ensures |s| == |routers|
    ensures forall i :: 0 <= i < |routers| ==> s[i] == Scope(routers[i].prefix, routers[i].List())
  {
    if routers == [] then []
    else Scopes(routers[..|routers| - 1]) +
         [Scope(routers[|routers| - 1].prefix, routers[|routers| - 1].List())]
  }

  /** The server's middleware in order, then the list's in order, then the handler. */
  ghost predicate InOrder(trace: seq<Act>, server: seq<Middleware>, list: seq<Middleware>, handler: nat) {
    && |trace| == |server| + |list| + 1
    && (forall i :: 0 <= i < |server| ==> trace[i] == Mw(server[i]))
    && (forall j :: 0 <= j < |list| ==> trace[|server| + j] == Mw(list[j]))
    && trace[|trace| - 1] == Handler(handler)
  }

  function Dispatched(server: seq<Middleware>, t: Table, k: nat): seq<Act>
    requires k < |t.routes| && t.routes[k].scope < |t.scopes|
  {
    Wrap(server, Wrap(t.scopes[t.routes[k].scope].list, [Handler(t.routes[k].handler)]))
  }

  // ---- what a program means ----

  /** The middleware a program adds to one scope with Use, in order. */
  function Uses(prog: seq<Command>, scope: nat): seq<Middleware> {
    if prog == [] then []
    else (if prog[0].Use? && prog[0].scope == scope then prog[0].mws else []) + Uses(prog[1..], scope)
  }

  lemma AppendAssociates<T>(a: seq<T>, b: seq<T>, c: seq<T>)
    ensures (a + b) + c == a + (b + c)
  {
  }

  /** A program changes an existing scope by its own Use calls only, and an existing route not
      at all: whatever is done to the parent or to other groups later does not matter. */
  lemma {:induction false} ScopeGrowsByItsOwnUses(t: Table, prog: seq<Command>, scope: nat)
    requires AllApplicable(t, prog) && scope < |t.scopes|
    ensures var t' := ExecuteAll(t, prog);
            && scope < |t'.scopes|
            && t'.scopes[scope] == Scope(t.scopes[scope].prefix, t.scopes[scope].list + Uses(prog, scope))
            && |t.routes| <= |t'.routes| && t'.routes[..|t.routes|] == t.routes
    decreases |prog|
  {
    if prog == [] {
      assert t.scopes[scope].list + [] == t.scopes[scope].list;
    } else {
      var t1 := Execute(t, prog[0]);
      ScopeGrowsByItsOwnUses(t1, prog[1..], scope);
      assert t1.routes[..|t.routes|] == t.routes;
      var t' := ExecuteAll(t1, prog[1..]);
      assert t'.routes[..|t.routes|] == t'.routes[..|t1.routes|][..|t.routes|];
      if prog[0].Use? && prog[0].scope == scope {
        AppendAssociates(t.scopes[scope].list, prog[0].mws, Uses(prog[1..], scope));
      } else {
        assert [] + Uses(prog[1..], scope) == Uses(prog[1..], scope);
      }
    }
  }

  lemma {:induction false} ExecuteSplitIff(t: Table, a: seq<Command>, b: seq<Command>)
    ensures AllApplicable(t, a + b) <==> AllApplicable(t, a) && AllApplicable(ExecuteAll(t, a), b)
    ensures AllApplicable(t, a + b) ==> ExecuteAll(t, a + b) == ExecuteAll(ExecuteAll(t, a), b)
    decreases |a|
  {
    if a == [] {
      assert a + b == b;
    } else {
      assert (a + b)[1..] == a[1..] + b;
      if Applicable(t, a[0]) {
        ExecuteSplitIff(Execute(t, a[0]), a[1..], b);
      }
    }
  }

  /** A route of a group, whenever it is dispatched: server middleware, the parent's list as it
      stood when the group was made, the group's own, then everything added to the group before
      the dispatch (before or after the registration), then the handler, on the concatenated
      prefix path. */
  lemma GroupRouteMeaning(before: seq<Command>, group: Command, middle: seq<Command>, handle: Command,
                          after: seq<Command>, server: seq<Middleware>)
    requires group.Group? && handle.Handle?
    requires AllApplicable(ROOT, before + ([group] + (middle + ([handle] + after))))
    requires AllApplicable(ROOT, before) ==> handle.scope == |ExecuteAll(ROOT, before).scopes|
    ensures AllApplicable(ROOT, before) && group.parent < |ExecuteAll(ROOT, before).scopes|
    ensures AllApplicable(ROOT, before + ([group] + middle))
    ensures var t := ExecuteAll(ROOT, before + ([group] + (middle + ([handle] + after))));
            var parent := ExecuteAll(ROOT, before).scopes[group.parent];
            var k := |ExecuteAll(ROOT, before + ([group] + middle)).routes|;
            && k < |t.routes| && t.routes[k].scope < |t.scopes|
            && t.routes[k].fullPath == parent.prefix + group.groupPrefix + handle.path
            && t.routes[k].httpMethod == handle.httpMethod
            && InOrder(Dispatched(server, t, k), server,
                       parent.list + group.own + Uses(middle + ([handle] + after), handle.scope), handle.handler)
  {
    var rest := middle + ([handle] + after);
    ExecuteSplitIff(ROOT, before, [group] + rest);
    var t0 := ExecuteAll(ROOT, before);
    assert ([group] + rest)[1..] == rest;
    var t1 := Execute(t0, group);
    assert ([group] + middle)[1..] == middle;
    ExecuteSplitIff(t1, middle, [handle] + after);
    var t2 := ExecuteAll(t1, middle);
    assert AllApplicable(t0, [group] + middle) && ExecuteAll(t0, [group] + middle) == t2;
    ExecuteSplitIff(ROOT, before, [group] + middle);
    assert ([handle] + after)[1..] == after;
    var t3 := Execute(t2, handle);
    ScopeGrowsByItsOwnUses(t1, middle, handle.scope);
    ScopeGrowsByItsOwnUses(t1, rest, handle.scope);
    ScopeGrowsByItsOwnUses(t3, after, handle.scope);
    var t := ExecuteAll(t3, after);
    assert t.routes[..|t3.routes|][|t2.routes|] == t3.routes[|t2.routes|];
    DispatchedInOrder(server, t, |t2.routes|);
  }

  /** A route of the root scope runs server middleware, everything ever added to the root before
      the dispatch, then the handler, on its own path. */
  lemma RootRouteMeaning(before: seq<Command>, handle: Command, after: seq<Command>, server: seq<Middleware>)
    requires handle.Handle? && handle.scope == 0
    requires AllApplicable(ROOT, before + ([handle] + after))
    ensures AllApplicable(ROOT, before)
    ensures var t := ExecuteAll(ROOT, before + ([handle] + after));
            var k := |ExecuteAll(ROOT, before).routes|;
            && k < |t.routes| && t.routes[k].scope < |t.scopes|
            && t.routes[k].fullPath == handle.path && t.routes[k].httpMethod == handle.httpMethod
            && InOrder(Dispatched(server, t, k), server, Uses(before + ([handle] + after), 0), handle.handler)
  {
    ExecuteSplitIff(ROOT, before, [handle] + after);
    ScopeGrowsByItsOwnUses(ROOT, before, 0);
    ScopeGrowsByItsOwnUses(ROOT, before + ([handle] + after), 0);
    var t0 := ExecuteAll(ROOT, before);
    assert ([handle] + after)[1..] == after;
    var t1 := Execute(t0, handle);
    ScopeGrowsByItsOwnUses(t1, after, 0);
    var t := ExecuteAll(t1, after);
    assert t.routes[..|t1.routes|][|t0.routes|] == t1.routes[|t0.routes|];
    assert [] + Uses(before + ([handle] + after), 0) == Uses(before + ([handle] + after), 0);
    DispatchedInOrder(server, t, |t0.routes|);
  }

  lemma DispatchedInOrder(server: seq<Middleware>, t: Table, k: nat)
    requires k < |t.routes| && t.routes[k].scope < |t.scopes|
    ensures InOrder(Dispatched(server, t, k), server, t.scopes[t.routes[k].scope].list, t.routes[k].handler)
  {
    var list, last := t.scopes[t.routes[k].scope].list, [Handler(t.routes[k].handler)];
    WrapInOrder(list, last);
    WrapInOrder(server, Wrap(list, last));
    assert Wrap(list, last)[|list| + 0] == last[0];
    assert Wrap(server, Wrap(list, last))[|server| + (|list| + 0)] == Wrap(list, last)[|list| + 0];
  }

  lemma {:induction false} WrapInOrder(mws: seq<Middleware>, inner: seq<Act>)
    ensures |Wrap(mws, inner)| == |mws| + |inner|
    ensures forall i :: 0 <= i < |mws| ==> Wrap(mws, inner)[i] == Mw(mws[i])
    ensures forall i :: 0 <= i < |inner| ==> Wrap(mws, inner)[|mws| + i] == inner[i]
  {
    if mws != [] {
      WrapInOrder(mws[1..], inner);
      assert forall i :: 0 <= i < |mws| - 1 ==> mws[1..][i] == mws[i + 1];
      assert forall i :: 0 < i < |Wrap(mws, inner)| ==> Wrap(mws, inner)[i] == Wrap(mws[1..], inner)[i - 1];
    }
  }

  /** Use does affect a route registered before it, exactly when it is called on that route's
      own scope with something to add. */
  lemma LateUseAppliesIff(t: Table, k: nat, scope: nat, mws: seq<Middleware>, server: seq<Middleware>)
    requires k < |t.routes| && t.routes[k].scope < |t.scopes| && scope < |t.scopes|
    ensures Dispatched(server, Execute(t, Use(scope, mws)), k) != Dispatched(server, t, k)
       <==> scope == t.routes[k].scope && mws != []
  {
    var r, t' := t.routes[k], Execute(t, Use(scope, mws));
    WrapInOrder(t.scopes[r.scope].list, [Handler(r.handler)]);
    WrapInOrder(t'.scopes[r.scope].list, [Handler(r.handler)]);
    WrapInOrder(server, Wrap(t.scopes[r.scope].list, [Handler(r.handler)]));
    WrapInOrder(server, Wrap(t'.scopes[r.scope].list, [Handler(r.handler)]));
    if mws == [] {
      assert t.scopes[scope].list + mws == t.scopes[scope].list;
    }
  }
}
