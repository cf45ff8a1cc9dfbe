/**
 Projected parsing: one walk over a document fills a slot per field path.

 The paths are arranged as a trie grown in place. A node stands for the `routes` through
 it: which path ids pass here, and what is left of each path. The walk is proved to leave
 in every slot exactly what the path reaches in the fully parsed, last-wins value.
 */
module Projection {
  import opened Wrappers
  import opened Json
  import opened Paths

  datatype Route = Route(id: nat, rest: Path)

  ghost function Tail(route: Route, segment: Segment): seq<Route> {
    if route.rest != [] && route.rest[0] == segment then [Route(route.id, route.rest[1..])] else []
  }

  /** The routes that continue with `segment`, one step further on. */
  ghost function Below(routes: seq<Route>, segment: Segment): seq<Route> {
    if routes == [] then []
    else
      var n := |routes| - 1;
      Below(routes[..n], segment) + Tail(routes[n], segment)
  }

  ghost function TerminalIds(routes: seq<Route>): seq<nat> {
    if routes == [] then []
    else
      var n := |routes| - 1;
      TerminalIds(routes[..n]) + if routes[n].rest == [] then [routes[n].id] else []
  }

  ghost function Ids(routes: seq<Route>): (ids: seq<nat>)
    ensures |ids| == |routes|
    ensures forall i :: 0 <= i < |ids| ==> ids[i] == routes[i].id
  {
    seq(|routes|, i requires 0 <= i < |routes| => routes[i].id)
  }

  lemma {:induction false} BelowMembers(routes: seq<Route>, segment: Segment, r: Route)
    ensures r in Below(routes, segment) <==> Route(r.id, [segment] + r.rest) in routes
  {
    if routes != [] {
      var n := |routes| - 1;
      BelowMembers(routes[..n], segment, r);
      assert routes == routes[..n] + [routes[n]];
      assert routes[n].rest != [] ==> routes[n].rest == [routes[n].rest[0]] + routes[n].rest[1..];
    }
  }

  lemma BelowAppend(routes: seq<Route>, r: Route, segment: Segment)
    ensures Below(routes + [r], segment) == Below(routes, segment) + Tail(r, segment)
  {
    assert (routes + [r])[..|routes|] == routes;
  }

  lemma LabelsAppend(routes: seq<Route>, r: Route)
    ensures TerminalIds(routes + [r]) == TerminalIds(routes) + if r.rest == [] then [r.id] else []
    ensures Ids(routes + [r]) == Ids(routes) + [r.id]
  {
    assert (routes + [r])[..|routes|] == routes;
  }

  lemma {:induction false} TerminalMembers(routes: seq<Route>, id: nat)
    ensures id in TerminalIds(routes) <==> Route(id, []) in routes
  {
    if routes != [] {
      var n := |routes| - 1;
      TerminalMembers(routes[..n], id);
      assert routes == routes[..n] + [routes[n]];
    }
  }

  ghost function FindIndex(indices: seq<(nat, Node)>, i: nat): Node? {
    if indices == [] then null
    else if indices[0].0 == i then indices[0].1
    else FindIndex(indices[1..], i)
  }

  lemma {:induction false} FindIndexAppend(indices: seq<(nat, Node)>, n: nat, child: Node, i: nat)
    requires FindIndex(indices, n) == null
    ensures FindIndex(indices + [(n, child)], i) == if i == n then child else FindIndex(indices, i)
  {
    if indices != [] {
      assert (indices + [(n, child)])[1..] == indices[1..] + [(n, child)];
      FindIndexAppend(indices[1..], n, child, i);
    }
  }

  class Node {
    var keys: map<string, Node>
    var indices: seq<(nat, Node)>
    var wildcard: Node?
    var terminals: seq<nat>
    var subtreeTerminals: seq<nat>

    ghost var routes: seq<Route>
    ghost var Repr: set<Node>

    /** The child a segment leads to, whichever table holds it. */
    ghost function Kid(segment: Segment): Node?
      reads this`keys, this`indices, this`wildcard
    {
      match segment
      case Key(k) => if k in keys then keys[k] else null
      case Index(i) => FindIndex(indices, i)
      case Wildcard => wildcard
    }

    /** Children lie below this node and share nothing with it or with one another. */
    ghost predicate Apart()
      reads this`keys, this`indices, this`wildcard, this`Repr, Repr
    {
      this in Repr &&
      (forall s :: Kid(s) != null ==> Kid(s) in Repr && Kid(s) in Kid(s).Repr && Kid(s).Repr <= Repr - {this}) &&
      (forall s, t :: Kid(s) != null && Kid(t) != null && s != t ==> Kid(s) in Repr && Kid(t) in Repr && Kid(s).Repr !! Kid(t).Repr)
    }

    /** Every child is a trie of its own over the routes that lead to it. */
    ghost predicate Linked()
      reads this, Repr
      decreases Repr, 0
    {
      Apart() &&
      (forall s :: Kid(s) != null ==> Kid(s).Valid()) &&
      (forall s :: Kid(s) != null ==> Kid(s) in Repr && Kid(s).routes == Below(routes, s)) &&
      (forall r :: r in routes && r.rest != [] ==> Kid(r.rest[0]) != null)
    }

    ghost predicate Valid()
      reads this, Repr
      decreases Repr, 1
      ensures Valid() ==> this in Repr
    {
      Linked() && terminals == TerminalIds(routes) && subtreeTerminals == Ids(routes)
    }

    constructor ()
      ensures Valid() && routes == [] && fresh(Repr) && Repr == {this}
    {
      keys, indices, wildcard := map[], [], null;
      terminals, subtreeTerminals := [], [];
      routes, Repr := [], {this};
    }

    method Lookup(segment: Segment) returns (child: Node?)
      ensures child == Kid(segment)
    {
      match segment
      case Key(k) =>
        child := if k in keys then keys[k] else null;
      case Index(i) =>
        child := null;
        assert indices[0..] == indices;
        for n := 0 to |indices|
          invariant FindIndex(indices, i) == FindIndex(indices[n..], i)
        {
          assert indices[n..][1..] == indices[n+1..];
          if indices[n].0 == i {
            return indices[n].1;
          }
        }
      case Wildcard =>
        child := wildcard;
    }

    method AddToTables(segment: Segment, child: Node)
      requires Kid(segment) == null
      modifies this`keys, this`indices, this`wildcard
      ensures Kid(segment) == child
      ensures forall t :: t != segment ==> Kid(t) == old(Kid(t))
    {
      match segment
      case Key(k) =>
        keys := keys[k := child];
      case Index(i) =>
        forall j ensures FindIndex(indices + [(i, child)], j) == if j == i then child else FindIndex(indices, j) {
          FindIndexAppend(indices, i, child, j);
        }
        indices := indices + [(i, child)];
      case Wildcard =>
        wildcard := child;
    }

    lemma NoRoutesBelow(segment: Segment)
      requires Linked() && Kid(segment) == null
      ensures Below(routes, segment) == []
    {
      hide Valid;
      if Below(routes, segment) != [] {
        BelowMembers(routes, segment, Below(routes, segment)[0]);
        assert false;
      }
    }

    method Attach(segment: Segment, child: Node)
      requires Linked() && Kid(segment) == null
      requires child.Valid() && child.routes == [] && child.Repr !! Repr
      modifies this`keys, this`indices, this`wildcard, this`Repr
      ensures Linked() && Repr == old(Repr) + child.Repr && Kid(segment) == child
    {
      hide Valid, Kid, FindIndex;
      NoRoutesBelow(segment);
      AddToTables(segment, child);
      Repr := Repr + child.Repr;
      assert Apart();
    }

    /** The child for `segment`, created on first use. */
    method Entry(segment: Segment) returns (child: Node)
      requires Linked()
      modifies this`keys, this`indices, this`wildcard, this`Repr
      ensures Linked() && fresh(Repr - old(Repr)) && Kid(segment) == child
    {
      hide Valid;
      var found := Lookup(segment);
      if found != null {
        return found;
      }
      child := new Node();
      Attach(segment, child);
    }

    /** Notes that one more path passes through this node, and whether it ends here. */
    method Label(id: nat, ends: bool)
      requires Linked()
      modifies this`subtreeTerminals, this`terminals
      ensures Linked()
      ensures subtreeTerminals == old(subtreeTerminals) + [id]
      ensures terminals == old(terminals) + if ends then [id] else []
    {
      hide Valid;
      subtreeTerminals := subtreeTerminals + [id];
      if ends {
        terminals := terminals + [id];
      }
    }

    /** A child whose own nodes were left alone is as it was. */
    twostate lemma Untouched(kid: Node)
      requires old(kid.Valid()) && unchanged(kid) && unchanged(old(kid.Repr))
      ensures kid.Valid() && kid.Repr == old(kid.Repr) && kid.routes == old(kid.routes)
    {
    }

    /** Every child knows the routes through it, and `route` besides. */
    ghost predicate Ahead(route: Route)
      reads this, Repr
    {
      Apart() &&
      (forall s :: Kid(s) != null ==> Kid(s).Valid()) &&
      (forall s :: Kid(s) != null ==> Kid(s) in Repr && Kid(s).routes == Below(routes, s) + Tail(route, s)) &&
      (forall r :: (r in routes || r == route) && r.rest != [] ==> Kid(r.rest[0]) != null)
    }

    lemma LinkedAhead(id: nat)
      requires Linked()
      ensures Ahead(Route(id, []))
    {
      hide Valid;
    }

    /** Records a route its child already knows. */
    ghost method Record(route: Route)
      requires Ahead(route)
      modifies this`routes
      ensures Linked() && routes == old(routes) + [route]
    {
      forall s ensures Below(routes + [route], s) == Below(routes, s) + Tail(route, s) {
        BelowAppend(routes, route, s);
      }
      routes := routes + [route];
      forall s | Kid(s) != null ensures Kid(s).Valid() {
        Untouched(Kid(s));
      }
    }

    /** A child that grew only by new nodes stays apart from its siblings. */
    twostate lemma StillApart(grown: Segment)
      requires old(Apart()) && old(Kid(grown)) != null
      requires keys == old(keys) && indices == old(indices) && wildcard == old(wildcard)
      requires forall s :: Kid(s) != null && s != grown ==> Kid(s).Repr == old(Kid(s).Repr)
      requires Kid(grown) in Kid(grown).Repr && fresh(Kid(grown).Repr - old(Kid(grown).Repr))
      requires Repr == old(Repr) + Kid(grown).Repr
      ensures Apart()
    {
      assert forall s :: Kid(s) == old(Kid(s));
      assert this !in Kid(grown).Repr;
      forall s, t | Kid(s) != null && Kid(t) != null && s != t ensures Kid(s).Repr !! Kid(t).Repr {
        assert old(Kid(s).Repr !! Kid(t).Repr);
      }
    }

    /** The child for the path's first segment takes the rest of the path. */
    method Descend(path: Path, id: nat) returns (wild: bool)
      requires Linked() && path != []
      modifies Repr
      ensures terminals == old(terminals) && subtreeTerminals == old(subtreeTerminals) && routes == old(routes)
      ensures Ahead(Route(id, path)) && fresh(Repr - old(Repr))
      ensures wild <==> Wildcard in path
      decreases path, 0
    {
      hide Valid;
      var child := Entry(path[0]);
      label Entered:
      wild := child.Insert(path[1..], id);
      wild := wild || path[0] == Wildcard;
      Repr := Repr + child.Repr;
      forall s | Kid(s) != null && s != path[0]
        ensures Kid(s).Valid() && Kid(s).Repr == old@Entered(Kid(s).Repr)
        ensures Kid(s).routes == Below(routes, s) + Tail(Route(id, path), s)
      {
        assert Kid(s) == old@Entered(Kid(s));
        Untouched@Entered(Kid(s));
      }
      assert child.Valid() && child.routes == Below(routes, path[0]) + Tail(Route(id, path), path[0]);
      StillApart@Entered(path[0]);
    }

    /** Threads one path through the trie; says whether it holds a wildcard. */
    method Insert(path: Path, id: nat) returns (wild: bool)
      requires Valid()
      modifies Repr
      ensures Valid() && fresh(Repr - old(Repr))
      ensures routes == old(routes) + [Route(id, path)]
      ensures wild <==> Wildcard in path
      decreases path, 1
    {
      hide Linked, Apart, Ahead;
      Label(id, path == []);
      if path == [] {
        wild := false;
        LinkedAhead(id);
      } else {
        wild := Descend(path, id);
      }
      LabelsAppend(routes, Route(id, path));
      Record(Route(id, path));
    }
  }

  // ----- The projection of a ruleset -----

  ghost function RoutesOf(paths: seq<Path>): (routes: seq<Route>)
    ensures |routes| == |paths|
    ensures forall i :: 0 <= i < |paths| ==> routes[i] == Route(i, paths[i])
  {
    seq(|paths|, i requires 0 <= i < |paths| => Route(i, paths[i]))
  }

  datatype Projection = Projection(root: Node, len: nat, hasWildcard: bool) {
    /** A trie of exactly these paths, path id `i` being `paths[i]`. */
    ghost predicate Covers(paths: seq<Path>)
      reads root, root.Repr
    {
      root.Valid() && root.routes == RoutesOf(paths) && len == |paths| &&
      (hasWildcard <==> exists i :: 0 <= i < |paths| && !Fixed(paths[i]))
    }
  }

  method Build(paths: seq<Path>) returns (projection: Projection)
    ensures projection.Covers(paths) && fresh(projection.root.Repr)
  {
    hide Node.Valid;
    var root := new Node();
    var hasWildcard := false;
    for id := 0 to |paths|
      invariant root.Valid() && fresh(root.Repr)
      invariant root.routes == RoutesOf(paths[..id])
      invariant hasWildcard <==> exists i :: 0 <= i < id && !Fixed(paths[i])
    {
      var wild := root.Insert(paths[id], id);
      hasWildcard := hasWildcard || wild;
      assert paths[..id+1] == paths[..id] + [paths[id]];
    }
    assert paths[..|paths|] == paths;
    projection := Projection(root, |paths|, hasWildcard);
  }

  lemma KidFacts(node: Node, segment: Segment)
    requires node.Valid()
    ensures node.Kid(segment) != null ==>
              node.Kid(segment).Valid() && node.Kid(segment).routes == Below(node.routes, segment) &&
              node.Kid(segment) in node.Repr && node.Kid(segment).Repr <= node.Repr
    ensures forall r :: r in node.routes && r.rest != [] && r.rest[0] == segment ==> node.Kid(segment) != null
  {
  }

  /** The node a prefix leads to. */
  ghost function At(node: Node, prefix: Path): (reached: Node?)
    requires node.Valid()
    reads node, node.Repr
    ensures reached != null ==> reached in node.Repr && reached.Repr <= node.Repr && reached.Valid()
    decreases prefix
  {
    if prefix == [] then node
    else
      KidFacts(node, prefix[0]);
      if node.Kid(prefix[0]) == null then null else At(node.Kid(prefix[0]), prefix[1..])
  }

  /** A node's `subtreeTerminals` are exactly the ids of the paths that run through it. */
  lemma {:induction false} SubtreeTerminalsExact(node: Node, prefix: Path, id: nat)
    requires node.Valid() && At(node, prefix) != null
    ensures id in At(node, prefix).subtreeTerminals <==> exists r :: r in node.routes && r.id == id && prefix <= r.rest
    decreases prefix
  {
    hide Node.Linked;
    if prefix == [] {
      IdsMembers(node.routes, id);
    } else {
      KidFacts(node, prefix[0]);
      var kid := node.Kid(prefix[0]);
      SubtreeTerminalsExact(kid, prefix[1..], id);
      RoutesThrough(node.routes, prefix, id);
    }
  }

  lemma IdsMembers(routes: seq<Route>, id: nat)
    ensures id in Ids(routes) <==> exists r :: r in routes && r.id == id
  {
    if id in Ids(routes) {
      var n :| 0 <= n < |routes| && Ids(routes)[n] == id;
      assert routes[n] in routes;
    }
    if r :| r in routes && r.id == id {
      var n :| 0 <= n < |routes| && routes[n] == r;
      assert Ids(routes)[n] == id;
    }
  }

  lemma RoutesThrough(routes: seq<Route>, prefix: Path, id: nat)
    requires prefix != []
    ensures (exists r :: r in Below(routes, prefix[0]) && r.id == id && prefix[1..] <= r.rest) <==>
            (exists r :: r in routes && r.id == id && prefix <= r.rest)
  {
    if r :| r in Below(routes, prefix[0]) && r.id == id && prefix[1..] <= r.rest {
      BelowMembers(routes, prefix[0], r);
      assert prefix == [prefix[0]] + prefix[1..] <= [prefix[0]] + r.rest;
    }
    if r :| r in routes && r.id == id && prefix <= r.rest {
      BelowMembers(routes, prefix[0], Route(id, r.rest[1..]));
      assert r.rest == [prefix[0]] + r.rest[1..];
    }
  }

  // ----- The walk -----

  type Slots = array<Option<string>>

  /** Path ids are slots, no id stands for two routes, and no route holds a wildcard. */
  ghost predicate Routable(routes: seq<Route>, size: nat) {
    (forall r :: r in routes ==> r.id < size && Fixed(r.rest)) &&
    (forall r, r' :: r in routes && r' in routes && r.id == r'.id ==> r == r')
  }

  /** Every slot of `routes` holds what its path reaches in `v`. */
  ghost predicate Filled(routes: seq<Route>, v: Value, out: seq<Option<string>>)
    requires Routable(routes, |out|)
  {
    forall r :: r in routes ==> out[r.id] == Slot(v, r.rest)
  }

  ghost predicate Cleared(routes: seq<Route>, out: seq<Option<string>>)
    requires Routable(routes, |out|)
  {
    forall r :: r in routes ==> out[r.id] == None
  }

  /** Slots of no route in `routes` are as they were. */
  ghost predicate Elsewhere(routes: seq<Route>, before: seq<Option<string>>, after: seq<Option<string>>) {
    |before| == |after| &&
    forall i :: 0 <= i < |after| && (forall r :: r in routes ==> r.id != i) ==> after[i] == before[i]
  }

  lemma BelowRoutable(routes: seq<Route>, segment: Segment, size: nat)
    requires Routable(routes, size)
    ensures Routable(Below(routes, segment), size)
    ensures forall r :: r in Below(routes, segment) ==> Route(r.id, [segment] + r.rest) in routes
    ensures forall r :: r in routes && r.rest != [] && r.rest[0] == segment ==> Route(r.id, r.rest[1..]) in Below(routes, segment)
  {
    forall r | r in Below(routes, segment)
      ensures Route(r.id, [segment] + r.rest) in routes && r.id < size && Fixed(r.rest)
    {
      BelowMembers(routes, segment, r);
    }
    forall r | r in routes && r.rest != [] && r.rest[0] == segment ensures Route(r.id, r.rest[1..]) in Below(routes, segment) {
      BelowMembers(routes, segment, Route(r.id, r.rest[1..]));
      assert r.rest == [segment] + r.rest[1..];
    }
    forall r, r' | r in Below(routes, segment) && r' in Below(routes, segment) && r.id == r'.id ensures r == r' {
      assert ([segment] + r.rest)[1..] == r.rest && ([segment] + r'.rest)[1..] == r'.rest;
    }
  }

  /** Routes of different children never share a slot. */
  lemma SiblingsDisjoint(routes: seq<Route>, s: Segment, t: Segment, size: nat)
    requires Routable(routes, size) && s != t
    ensures forall r, r' :: r in Below(routes, s) && r' in Below(routes, t) ==> r.id != r'.id
  {
    BelowRoutable(routes, s, size);
    BelowRoutable(routes, t, size);
    forall r, r' | r in Below(routes, s) && r' in Below(routes, t) ensures r.id != r'.id {
      assert ([s] + r.rest)[0] == s && ([t] + r'.rest)[0] == t;
    }
  }

  /** Consumes a value no path names; still an error where it does not decode. */
  method Skip(d: Doc) returns (ok: bool)
    ensures ok <==> Decodes(d)
    decreases d
  {
    match d
    case Array(items) =>
      for i := 0 to |items|
        invariant forall j :: 0 <= j < i ==> Decodes(items[j])
      {
        var decoded := Skip(items[i]);
        if !decoded {
          return false;
        }
      }
      ok := true;
    case Object(members) =>
      for i := 0 to |members|
        invariant forall j :: 0 <= j < i ==> MemberDecodes(members[j])
      {
        var decoded := SkipMember(members[i]);
        if !decoded {
          return false;
        }
      }
      ok := true;
    case Undecodable =>
      ok := false;
    case _ =>
      ok := true;
  }

  method SkipMember(m: Member) returns (ok: bool)
    ensures ok <==> MemberDecodes(m)
    decreases m
  {
    match m.key
    case BadKey => ok := false;
    case Decoded(_) => ok := Skip(m.value);
  }

  /** Writes a scalar into the slots of the paths that end here. */
  method CaptureTerminals(node: Node, value: Option<string>, out: Slots)
    requires node.Valid() && Routable(node.routes, out.Length)
    modifies out
    ensures forall i :: 0 <= i < out.Length ==> out[i] == if Route(i, []) in node.routes then value else old(out[i])
  {
    forall id ensures id in node.terminals <==> Route(id, []) in node.routes {
      TerminalMembers(node.routes, id);
    }
    for n := 0 to |node.terminals|
      invariant forall i :: 0 <= i < out.Length ==> out[i] == if i in node.terminals[..n] then value else old(out[i])
    {
      assert node.terminals[n] in node.terminals;
      assert node.terminals[..n+1] == node.terminals[..n] + [node.terminals[n]];
      out[node.terminals[n]] := value;
    }
    assert node.terminals[..|node.terminals|] == node.terminals;
  }

  /** Nulls every slot of a subtree in one flat loop. */
  method ClearSubtree(node: Node, out: Slots)
    requires node.Valid() && Routable(node.routes, out.Length)
    modifies out
    ensures Cleared(node.routes, out[..])
    ensures Elsewhere(node.routes, old(out[..]), out[..])
  {
    var ids := node.subtreeTerminals;
    for n := 0 to |ids|
      invariant forall i :: 0 <= i < out.Length ==> out[i] == if i in ids[..n] then None else old(out[i])
    {
      assert ids[n] == node.routes[n].id;
      assert ids[..n+1] == ids[..n] + [ids[n]];
      out[ids[n]] := None;
    }
    assert ids[..|ids|] == ids;
    forall r | r in node.routes ensures r.id in ids {
      var n :| 0 <= n < |node.routes| && node.routes[n] == r;
      assert ids[n] == r.id;
    }
    forall i | i in ids ensures exists r :: r in node.routes && r.id == i {
      var n :| 0 <= n < |ids| && ids[n] == i;
      assert node.routes[n].id == i;
    }
  }

  /** What one more member does to a route's slot. */
  lemma FieldSlot(fields: map<string, Value>, name: string, v: Value, path: Path)
    requires Fixed(path)
    ensures Slot(VObject(fields[name := v]), path) ==
            if path != [] && path[0] == Key(name) then Slot(v, path[1..]) else Slot(VObject(fields), path)
  {
  }

  /** Walks one value against one node, whose slots the caller has nulled. */
  method VisitValue(node: Node, d: Doc, out: Slots) returns (ok: bool)
    requires node.Valid() && Routable(node.routes, out.Length) && Cleared(node.routes, out[..])
    modifies out
    ensures ok <==> Decodes(d)
    ensures ok ==> Filled(node.routes, Collapse(d), out[..])
    ensures Elsewhere(node.routes, old(out[..]), out[..])
    decreases d, 0
  {
    hide Node.Valid;
    match d
    case Object(members) =>
      ok := VisitMap(node, members, out);
    case Array(items) =>
      ok := VisitSeq(node, items, out);
      if ok {
        assert Collapse(d) == VArray(Collapsed(items));
      }
    case Undecodable =>
      ok := false;
    case Null =>
      ok := true;
    case _ =>
      CaptureTerminals(node, ScalarText(Collapse(d)), out);
      ok := true;
  }

  ghost function Collapsed(items: seq<Doc>): seq<Value>
    requires forall i :: 0 <= i < |items| ==> Decodes(items[i])
  {
    seq(|items|, i requires 0 <= i < |items| => Collapse(items[i]))
  }

  method VisitMap(node: Node, members: seq<Member>, out: Slots) returns (ok: bool)
    requires node.Valid() && Routable(node.routes, out.Length) && Cleared(node.routes, out[..])
    modifies out
    ensures ok <==> MembersDecode(members)
    ensures ok ==> Filled(node.routes, VObject(CollapseMembers(members)), out[..])
    ensures Elsewhere(node.routes, old(out[..]), out[..])
    decreases members
  {
    hide Node.Valid;
    assert members[..0] == [];
    for i := 0 to |members|
      invariant MembersDecode(members[..i])
      invariant Filled(node.routes, VObject(CollapseMembers(members[..i])), out[..])
      invariant Elsewhere(node.routes, old(out[..]), out[..])
    {
      ghost var fields := CollapseMembers(members[..i]);
      assert members[..i+1][..i] == members[..i];
      ok := VisitMember(node, members[i], fields, out);
      if !ok {
        return false;
      }
    }
    assert members[..|members|] == members;
    ok := true;
  }

  /** Last-wins: a named child's slots are nulled before its value is walked again. */
  method VisitMember(node: Node, m: Member, ghost fields: map<string, Value>, out: Slots) returns (ok: bool)
    requires node.Valid() && Routable(node.routes, out.Length) && Filled(node.routes, VObject(fields), out[..])
    modifies out
    ensures ok <==> MemberDecodes(m)
    ensures ok ==> Filled(node.routes, VObject(fields[m.key.name := MemberValue(m)]), out[..])
    ensures Elsewhere(node.routes, old(out[..]), out[..])
    decreases m
  {
    hide Node.Valid;
    if m.key.BadKey? {
      return false;
    }
    ghost var segment := Key(m.key.name);
    KidFacts(node, segment);
    BelowRoutable(node.routes, segment, out.Length);
    if m.key.name !in node.keys {
      ok := Skip(m.value);
    } else {
      var child := node.keys[m.key.name];
      ClearSubtree(child, out);
      ok := VisitValue(child, m.value, out);
    }
    if ok {
      forall r | r in node.routes ensures out[r.id] == Slot(VObject(fields[m.key.name := MemberValue(m)]), r.rest) {
        FieldSlot(fields, m.key.name, MemberValue(m), r.rest);
      }
    }
  }

  method VisitSeq(node: Node, items: seq<Doc>, out: Slots) returns (ok: bool)
    requires node.Valid() && Routable(node.routes, out.Length) && Cleared(node.routes, out[..])
    modifies out
    ensures ok <==> forall i :: 0 <= i < |items| ==> Decodes(items[i])
    ensures ok ==> Filled(node.routes, VArray(Collapsed(items)), out[..])
    ensures Elsewhere(node.routes, old(out[..]), out[..])
    decreases items
  {
    hide Node.Valid;
    if node.indices == [] && node.wildcard == null {
      for i := 0 to |items|
        invariant forall j :: 0 <= j < i ==> Decodes(items[j])
        invariant out[..] == old(out[..])
      {
        var decoded := Skip(items[i]);
        if !decoded {
          return false;
        }
      }
      forall r | r in node.routes ensures Slot(VArray(Collapsed(items)), r.rest) == None {
        if r.rest != [] {
          KidFacts(node, r.rest[0]);
        }
      }
      return true;
    }
    for position := 0 to |items|
      invariant forall i :: 0 <= i < position ==> Decodes(items[i])
      invariant Filled(node.routes, VArray(Collapsed(items[..position])), out[..])
      invariant Elsewhere(node.routes, old(out[..]), out[..])
    {
      ok := VisitElement(node, items[position], position, Collapsed(items[..position]), out);
      if !ok {
        return false;
      }
      assert Collapsed(items[..position+1]) == Collapsed(items[..position]) + [Collapse(items[position])];
    }
    assert items[..|items|] == items;
    ok := true;
  }

  /** An element goes to the child for its position, whose slots nothing has filled yet. */
  method VisitElement(node: Node, d: Doc, position: nat, ghost before: seq<Value>, out: Slots) returns (ok: bool)
    requires node.Valid() && Routable(node.routes, out.Length) && position == |before|
    requires Filled(node.routes, VArray(before), out[..])
    modifies out
    ensures ok <==> Decodes(d)
    ensures ok ==> Filled(node.routes, VArray(before + [Collapse(d)]), out[..])
    ensures Elsewhere(node.routes, old(out[..]), out[..])
    decreases d, 1
  {
    hide Node.Valid;
    var child := node.Lookup(Index(position));
    ghost var segment := Index(position);
    KidFacts(node, segment);
    BelowRoutable(node.routes, segment, out.Length);
    if child == null {
      ok := Skip(d);
    } else {
      forall r | r in child.routes ensures out[r.id] == None {
        assert Route(r.id, [segment] + r.rest) in node.routes;
        ElementSlot(before, VNull, [segment] + r.rest);
      }
      ok := VisitValue(child, d, out);
    }
    if ok {
      forall r | r in node.routes ensures out[r.id] == Slot(VArray(before + [Collapse(d)]), r.rest) {
        ElementSlot(before, Collapse(d), r.rest);
      }
    }
  }

  /** What one more element does to a route's slot. */
  lemma ElementSlot(before: seq<Value>, v: Value, path: Path)
    requires Fixed(path)
    ensures Slot(VArray(before + [v]), path) ==
            if path != [] && path[0] == Index(|before|) then Slot(v, path[1..]) else Slot(VArray(before), path)
    ensures path != [] && path[0] == Index(|before|) ==> Slot(VArray(before), path) == None
  {
  }

  // ----- The whole text -----

  lemma RoutesOfRoutable(paths: seq<Path>)
    requires forall i :: 0 <= i < |paths| ==> Fixed(paths[i])
    ensures Routable(RoutesOf(paths), |paths|)
  {
  }

  /**
   One walk over `text`: it fails exactly when the full parse fails, skipped subtrees and
   trailing text included, and otherwise every slot is what the path reaches in the value.
   */
  method Project(text: Text, projection: Projection, ghost paths: seq<Path>) returns (r: Option<seq<Option<string>>>)
    requires projection.Covers(paths) && !projection.hasWildcard
    ensures r.Some? <==> Parse(text).Some?
    ensures r.Some? ==> |r.value| == |paths|
    ensures r.Some? ==> forall id :: 0 <= id < |paths| ==> r.value[id] == Slot(Parse(text).value, paths[id])
  {
    hide Node.Valid;
    var out := new Option<string>[projection.len](_ => None);
    RoutesOfRoutable(paths);
    var ok := VisitValue(projection.root, text.root, out);
    if !ok || text.trailing {
      return None;
    }
    forall id | 0 <= id < |paths| ensures out[id] == Slot(Parse(text).value, paths[id]) {
      assert RoutesOf(paths)[id] in RoutesOf(paths);
    }
    r := Some(out[..]);
  }
}
