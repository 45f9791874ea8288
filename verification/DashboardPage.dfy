/** Reconciling the page in place: nodes are patched, moved, inserted and removed in one shared document. */
module DashboardPage {
  import opened Clocks
  import opened Dashboard
  import opened DashboardTrees
  import opened KeyLoops

  /** Only the named nodes may have changed; none came or went. */
  ghost predicate SameElsewhere(before: Nodes, after: Nodes, changed: set<Id>) {
    after.Keys == before.Keys && forall id | id in before && id !in changed :: after[id] == before[id]
  }

  lemma ElsewhereTrans(a: Nodes, b: Nodes, c: Nodes, changed: set<Id>)
    requires SameElsewhere(a, b, changed) && SameElsewhere(b, c, changed)
    ensures SameElsewhere(a, c, changed)
  {
  }

  lemma ElsewhereMore(a: Nodes, b: Nodes, changed: set<Id>, more: set<Id>)
    requires SameElsewhere(a, b, changed) && changed <= more
    ensures SameElsewhere(a, b, more)
  {
  }

  lemma ShowsAllElsewhere(before: Nodes, after: Nodes, changed: set<Id>, ts: seq<Tree>, parent: Option<Id>)
    requires ShowsAll(before, ts, parent) && SameElsewhere(before, after, changed) && AllIds(ts) !! changed
    ensures ShowsAll(after, ts, parent)
  {
    ShowsAllFrame(before, after, ts, parent);
  }

  function Opt(id: Option<Id>): set<Id> {
    if id.Some? then {id.value} else {}
  }

  /** `chosen` is in place at the front of the parent's children, `rest` are the old children not yet matched, and
      `tail` the new ones still to come, each in its own tree, none sharing a node. */
  ghost predicate Underway(nodes: Nodes, parent: Id, donor: Option<Id>, previous: seq<Id>, used: set<Id>,
                           chosen: seq<Tree>, rest: seq<Tree>, tail: seq<Tree>) {
    && parent in nodes && nodes[parent].children == Roots(chosen) + Roots(rest)
    && ShowsAll(nodes, chosen, Some(parent)) && ShowsAll(nodes, rest, Some(parent)) && ShowsAll(nodes, tail, donor)
    && Unused(previous, used) == Roots(rest) && (forall id | id in previous :: id in nodes)
    && (donor.Some? ==> donor.value in nodes)
    && Separate(parent, donor, chosen, rest, tail)
  }

  ghost predicate Separate(parent: Id, donor: Option<Id>, chosen: seq<Tree>, rest: seq<Tree>, tail: seq<Tree>) {
    && Apart(chosen) && Apart(rest) && Apart(tail)
    && AllIds(chosen) !! AllIds(rest) !! AllIds(tail) !! ({parent} + Opt(donor))
    && parent !in Opt(donor)
  }

  lemma KidsShown(nodes: Nodes, t: Tree)
    requires Shows(nodes, t) && t.Element?
    ensures nodes[t.id].children == Roots(t.children) && ShowsAll(nodes, t.children, Some(t.id))
  {
    forall i | 0 <= i < |t.children|
      ensures HasParent(nodes, t.children[i].id, Some(t.id)) && Shows(nodes, t.children[i])
    {
      assert Kids(t)[i] == t.children[i];
    }
  }

  lemma ShownFromKids(nodes: Nodes, t: Tree)
    requires t.Element? && t.id in nodes && nodes[t.id].face == FaceOf(t)
    requires nodes[t.id].children == Roots(t.children) && ShowsAll(nodes, t.children, Some(t.id))
    ensures Shows(nodes, t)
  {
    forall i | 0 <= i < |Kids(t)| ensures HasParent(nodes, Kids(t)[i].id, Some(t.id)) && Shows(nodes, Kids(t)[i]) {
      assert Kids(t)[i] == t.children[i];
    }
  }

  /** The node the next new child becomes. */
  function Becomes(rest: seq<Tree>, next: Tree): Tree {
    var f := Find(rest, next);
    if f < |rest| then Patched(rest[f], next) else next
  }

  function Left(rest: seq<Tree>, next: Tree): seq<Tree> {
    var f := Find(rest, next);
    if f < |rest| then Without(rest, f) else rest
  }

  lemma BecomesFacts(rest: seq<Tree>, next: Tree)
    requires Apart(rest) && Sound(next) && AllIds(rest) !! Ids(next)
    ensures Sound(Becomes(rest, next)) && Ids(Becomes(rest, next)) <= AllIds(rest) + Ids(next)
    ensures Apart(Left(rest, next)) && AllIds(Left(rest, next)) <= AllIds(rest)
    ensures Ids(Becomes(rest, next)) !! AllIds(Left(rest, next))
  {
    var f := Find(rest, next);
    if f < |rest| {
      ApartWithout(rest, f);
      PatchedSound(rest[f], next);
    }
  }

  lemma SeparateStep(parent: Id, donor: Option<Id>, chosen: seq<Tree>, rest: seq<Tree>, tail: seq<Tree>)
    requires Separate(parent, donor, chosen, rest, tail) && tail != []
    ensures Separate(parent, donor, chosen + [Becomes(rest, tail[0])], Left(rest, tail[0]), tail[1..])
    ensures AllIds(tail) == Ids(tail[0]) + AllIds(tail[1..]) && Sound(tail[0]) && Ids(tail[0]) !! AllIds(rest)
    ensures Ids(Becomes(rest, tail[0])) <= AllIds(rest) + Ids(tail[0]) && AllIds(Left(rest, tail[0])) <= AllIds(rest)
  {
    var t := Becomes(rest, tail[0]);
    BecomesFacts(rest, tail[0]);
    ApartSplit(chosen, [t]);
    ApartOne(t);
    hide Becomes, Left;
  }

  lemma WithoutRoots(ts: seq<Tree>, i: nat)
    requires i < |ts|
    ensures Roots(Without(ts, i)) == Without(Roots(ts), i)
  {
  }

  lemma RemovedRoots(ts: seq<Tree>, i: nat)
    requires i < |ts| && Apart(ts)
    ensures Removed(Roots(ts), ts[i].id) == Roots(Without(ts, i))
  {
    RootsDistinct(ts);
    hide Apart, Distinct, Removed;
    RemovedAt(Roots(ts), i);
    WithoutRoots(ts, i);
  }

  lemma RootsInIds(ts: seq<Tree>)
    ensures forall id | id in Roots(ts) :: id in AllIds(ts)
  {
    forall id | id in Roots(ts) ensures id in AllIds(ts) {
      var i :| 0 <= i < |ts| && Roots(ts)[i] == id;
      MemberIds(ts, i);
    }
  }

  lemma LeftRoots(rest: seq<Tree>, next: Tree)
    requires Apart(rest) && Ids(next) !! AllIds(rest)
    ensures Removed(Roots(rest), Becomes(rest, next).id) == Roots(Left(rest, next))
  {
    var f := Find(rest, next);
    if f < |rest| {
      PatchedLike(rest[f], next);
      RemovedRoots(rest, f);
    } else {
      RootInIds(next);
      RootsInIds(rest);
      RemovedAbsent(Roots(rest), next.id);
    }
  }

  lemma FirstRemoved(placed: seq<Id>, others: seq<Id>)
    requires others != [] && Distinct(placed + others)
    ensures placed + [others[0]] + Removed(others, others[0]) == placed + others
  {
    forall i, j | 0 <= i < j < |others| ensures others[i] != others[j] {
      assert (placed + others)[|placed| + i] != (placed + others)[|placed| + j];
    }
    RemovedAt(others, 0);
    assert others == [others[0]] + others[1..];
  }

  lemma RemovedMiddle(placed: seq<Id>, left: seq<Id>)
    requires left != [] && Distinct(placed + left)
    ensures Removed(placed + left, left[0]) == placed + left[1..] && Distinct(placed + left[1..])
  {
    var ids, i := placed + left, |placed|;
    RemovedAt(ids, i);
    assert Without(ids, i) == placed + left[1..];
    forall a, b | 0 <= a < b < |placed + left[1..]| ensures (placed + left[1..])[a] != (placed + left[1..])[b] {
      var c, d := if a < i then a else a + 1, if b < i then b else b + 1;
      assert ids[c] != ids[d];
    }
  }

  ghost function Touched(parent: Id, donor: Option<Id>, olds: seq<Tree>, nexts: seq<Tree>): set<Id> {
    {parent} + Opt(donor) + AllIds(olds) + AllIds(nexts)
  }

  lemma ElsewhereSelf(nodes: Nodes, changed: set<Id>)
    ensures SameElsewhere(nodes, nodes, changed)
  {
  }

  lemma UnderwayStart(nodes: Nodes, parent: Id, donor: Option<Id>, olds: seq<Tree>, nexts: seq<Tree>)
    requires parent in nodes && nodes[parent].children == Roots(olds)
    requires ShowsAll(nodes, olds, Some(parent)) && ShowsAll(nodes, nexts, donor)
      && (donor.Some? ==> donor.value in nodes)
    requires Separate(parent, donor, [], olds, nexts)
    ensures Underway(nodes, parent, donor, Roots(olds), {}, [], olds, nexts)
  {
    UnusedAll(Roots(olds));
    assert Roots([]) + Roots(olds) == Roots(olds);
  }

  /** `chosen` are the first `index` reconciled children; `rest` and `tail` will give the others. */
  ghost predicate OnTrack(
    olds: seq<Tree>, nexts: seq<Tree>, index: nat, chosen: seq<Tree>, rest: seq<Tree>, tail: seq<Tree>)
  {
    && |chosen| == index <= |nexts| && tail == nexts[index..]
    && Reconciled(olds, nexts) == chosen + Reconciled(rest, tail)
    && AllIds(rest) <= AllIds(olds) && AllIds(tail) <= AllIds(nexts)
  }

  lemma OnTrackStart(olds: seq<Tree>, nexts: seq<Tree>)
    ensures OnTrack(olds, nexts, 0, [], olds, nexts)
  {
    assert nexts[0..] == nexts;
  }

  lemma Regroup(a: seq<Tree>, t: Tree, b: seq<Tree>)
    ensures a + ([t] + b) == a + [t] + b
  {
  }

  lemma OnTrackStep(olds: seq<Tree>, nexts: seq<Tree>, index: nat, chosen: seq<Tree>, rest: seq<Tree>, tail: seq<Tree>)
    requires OnTrack(olds, nexts, index, chosen, rest, tail) && index < |nexts| && Apart(rest)
    ensures tail != [] && tail[0] == nexts[index]
    ensures OnTrack(olds, nexts, index + 1, chosen + [Becomes(rest, tail[0])], Left(rest, tail[0]), tail[1..])
  {
    var t, left := Becomes(rest, tail[0]), Left(rest, tail[0]);
    var f := Find(rest, tail[0]);
    if f < |rest| { ApartWithout(rest, f); }
    assert Reconciled(rest, tail) == [t] + Reconciled(left, tail[1..]);
    hide Reconciled, Becomes, Left, Apart;
    Regroup(chosen, t, Reconciled(left, tail[1..]));
  }

  lemma OnTrackEnd(olds: seq<Tree>, nexts: seq<Tree>, chosen: seq<Tree>, rest: seq<Tree>, tail: seq<Tree>)
    requires OnTrack(olds, nexts, |nexts|, chosen, rest, tail)
    ensures tail == [] && chosen == Reconciled(olds, nexts) && AllIds(rest) <= AllIds(olds)
  {
  }

  lemma RestApart(nodes: Nodes, parent: Id, donor: Option<Id>, previous: seq<Id>, used: set<Id>,
                  chosen: seq<Tree>, rest: seq<Tree>, tail: seq<Tree>)
    requires Underway(nodes, parent, donor, previous, used, chosen, rest, tail)
    ensures Apart(rest)
  {
  }

  lemma TouchedLess(parent: Id, donor: Option<Id>, olds: seq<Tree>, nexts: seq<Tree>, index: nat, chosen: seq<Tree>,
                    rest: seq<Tree>, tail: seq<Tree>)
    requires OnTrack(olds, nexts, index, chosen, rest, tail)
    ensures Touched(parent, donor, rest, tail) <= Touched(parent, donor, olds, nexts)
    ensures {parent} + AllIds(rest) <= Touched(parent, donor, olds, nexts)
  {
  }

  /** The nodes that settling the next child may touch. */
  ghost function Settling(rest: seq<Tree>, next: Tree): set<Id> {
    var f := Find(rest, next);
    if f < |rest| then Ids(rest[f]) + Ids(next) else {}
  }

  lemma SettlingApart(parent: Id, donor: Option<Id>, chosen: seq<Tree>, rest: seq<Tree>, tail: seq<Tree>)
    requires Separate(parent, donor, chosen, rest, tail) && tail != []
    ensures var ids, next := Settling(rest, tail[0]), tail[0];
            && ids !! AllIds(chosen) && ids !! AllIds(Left(rest, next)) && ids !! AllIds(tail[1..])
            && ids !! {parent} + Opt(donor) && ids <= AllIds(rest) + Ids(next)
  {
    var f := Find(rest, tail[0]);
    if f < |rest| { ApartWithout(rest, f); }
  }

  lemma ShowsLeft(nodes: Nodes, rest: seq<Tree>, next: Tree, parent: Option<Id>)
    requires ShowsAll(nodes, rest, parent)
    ensures ShowsAll(nodes, Left(rest, next), parent)
  {
    var f := Find(rest, next);
    if f < |rest| {
      hide Shows, HasParent, Find;
      ShowsWithout(nodes, rest, f, parent);
    }
  }

  lemma ShowsWithout(nodes: Nodes, ts: seq<Tree>, f: nat, parent: Option<Id>)
    requires f < |ts| && ShowsAll(nodes, ts, parent)
    ensures ShowsAll(nodes, Without(ts, f), parent)
  {
    hide Shows, HasParent;
    forall i | 0 <= i < |Without(ts, f)|
      ensures HasParent(nodes, Without(ts, f)[i].id, parent) && Shows(nodes, Without(ts, f)[i]) {
      var j := if i < f then i else i + 1;
      assert Without(ts, f)[i] == ts[j] && HasParent(nodes, ts[j].id, parent);
    }
  }

  lemma ShowsTail(nodes: Nodes, tail: seq<Tree>, parent: Option<Id>)
    requires tail != [] && ShowsAll(nodes, tail, parent)
    ensures ShowsAll(nodes, tail[1..], parent)
  {
    forall i | 0 <= i < |tail[1..]| ensures HasParent(nodes, tail[1..][i].id, parent) && Shows(nodes, tail[1..][i]) {
      assert tail[1..][i] == tail[i + 1];
    }
  }

  /** Once the next child is settled, everything else is as it was. */
  lemma AfterSettling(
    before: Nodes, mid: Nodes, parent: Id, donor: Option<Id>, chosen: seq<Tree>, rest: seq<Tree>, tail: seq<Tree>)
    requires ShowsAll(before, chosen, Some(parent)) && ShowsAll(before, rest, Some(parent))
      && ShowsAll(before, tail, donor)
    requires Separate(parent, donor, chosen, rest, tail) && tail != []
    requires SameElsewhere(before, mid, Settling(rest, tail[0]))
    ensures ShowsAll(mid, chosen, Some(parent)) && ShowsAll(mid, Left(rest, tail[0]), Some(parent))
    ensures ShowsAll(mid, tail[1..], donor)
  {
    var ids := Settling(rest, tail[0]);
    SettlingApart(parent, donor, chosen, rest, tail);
    ShowsLeft(before, rest, tail[0], Some(parent));
    ShowsTail(before, tail, donor);
    hide ShowsAll, Left, Settling, Separate, SameElsewhere;
    ShowsAllElsewhere(before, mid, ids, chosen, Some(parent));
    ShowsAllElsewhere(before, mid, ids, Left(rest, tail[0]), Some(parent));
    ShowsAllElsewhere(before, mid, ids, tail[1..], donor);
  }

  /** The settled node is new to the front of the list, and sits under the parent if it sat in the list at all. */
  lemma PlaceFacts(parent: Id, donor: Option<Id>, chosen: seq<Tree>, rest: seq<Tree>, tail: seq<Tree>)
    requires Separate(parent, donor, chosen, rest, tail) && tail != []
    ensures Distinct(Roots(chosen) + Roots(rest))
    ensures var x := Becomes(rest, tail[0]).id;
            && x !in Roots(chosen) && x != parent && x !in Opt(donor)
            && (x in Roots(rest) ==> Find(rest, tail[0]) < |rest|)
            && x in AllIds(rest) + AllIds(tail)
    ensures Removed(Roots(rest), Becomes(rest, tail[0]).id) == Roots(Left(rest, tail[0]))
  {
    var f, t := Find(rest, tail[0]), Becomes(rest, tail[0]);
    RootsApart(chosen, rest);
    RootsInIds(chosen);
    RootsInIds(rest);
    RootInIds(t);
    RootInIds(tail[0]);
    BecomesFacts(rest, tail[0]);
    LeftRoots(rest, tail[0]);
  }

  /** A tree moved to another parent is still that tree. */
  lemma ShowsMoved(mid: Nodes, after: Nodes, t: Tree, changed: set<Id>)
    requires Shows(mid, t) && Sound(t) && SameElsewhere(mid, after, changed + {t.id}) && Ids(t) !! changed
    requires after[t.id].face == mid[t.id].face && after[t.id].children == mid[t.id].children
    ensures Shows(after, t)
  {
    if t.Element? {
      KidsShown(mid, t);
      ShowsAllElsewhere(mid, after, changed + {t.id}, t.children, Some(t.id));
      ShownFromKids(after, t);
    }
  }

  lemma AfterPlacing(
    mid: Nodes, after: Nodes, parent: Id, donor: Option<Id>, chosen: seq<Tree>, rest: seq<Tree>, tail: seq<Tree>)
    requires tail != [] && ShowsAll(mid, chosen, Some(parent)) && ShowsAll(mid, Left(rest, tail[0]), Some(parent))
    requires ShowsAll(mid, tail[1..], donor) && Shows(mid, Becomes(rest, tail[0]))
    requires Separate(parent, donor, chosen, rest, tail)
    requires var x := Becomes(rest, tail[0]).id;
             && SameElsewhere(mid, after, {parent} + Opt(donor) + {x})
             && after[x] == mid[x].(parent := Some(parent))
    ensures ShowsAll(after, chosen + [Becomes(rest, tail[0])], Some(parent))
    ensures ShowsAll(after, Left(rest, tail[0]), Some(parent)) && ShowsAll(after, tail[1..], donor)
  {
    var t, changed := Becomes(rest, tail[0]), {parent} + Opt(donor);
    SeparateStep(parent, donor, chosen, rest, tail);
    PlacedApart(parent, donor, chosen, rest, tail);
    ShowsMoved(mid, after, t, changed);
    var all := changed + {t.id};
    hide Shows, Separate, Becomes, Left, SameElsewhere;
    ShowsAllElsewhere(mid, after, all, chosen, Some(parent));
    ShowsAllElsewhere(mid, after, all, Left(rest, tail[0]), Some(parent));
    ShowsAllElsewhere(mid, after, all, tail[1..], donor);
  }

  lemma PlacedApart(parent: Id, donor: Option<Id>, chosen: seq<Tree>, rest: seq<Tree>, tail: seq<Tree>)
    requires Separate(parent, donor, chosen, rest, tail) && tail != []
    ensures var t := Becomes(rest, tail[0]);
            var all := {parent} + Opt(donor) + {t.id};
            && Sound(t) && Ids(t) !! {parent} + Opt(donor)
            && AllIds(chosen) !! all && AllIds(Left(rest, tail[0])) !! all && AllIds(tail[1..]) !! all
  {
    RootInIds(Becomes(rest, tail[0]));
    BecomesFacts(rest, tail[0]);
    var f := Find(rest, tail[0]);
    if f < |rest| {
      PatchedLike(rest[f], tail[0]);
      MemberIds(rest, f);
    }
  }

  /** Removing leftovers: `placed` stays, `left` is still to be removed. */
  ghost predicate Clearing(start: Nodes, nodes: Nodes, parent: Id, placed: seq<Id>, left: seq<Id>, touched: set<Id>) {
    && SameElsewhere(start, nodes, touched) && parent in start && parent in touched
    && nodes[parent] == start[parent].(children := placed + left) && Distinct(placed + left)
    && forall id | id in left :: id in start && id in touched && id != parent
  }

  lemma ClearingStart(nodes: Nodes, parent: Id, donor: Option<Id>, previous: seq<Id>, used: set<Id>,
                      chosen: seq<Tree>, rest: seq<Tree>)
    requires Underway(nodes, parent, donor, previous, used, chosen, rest, [])
    ensures Clearing(nodes, nodes, parent, Roots(chosen), Roots(rest), {parent} + AllIds(rest))
  {
    RootsInIds(rest);
    RootsApart(chosen, rest);
    hide Shows, Apart, Distinct, Unused;
    RootsShown(nodes, rest, Some(parent));
    ElsewhereSelf(nodes, {parent} + AllIds(rest));
  }

  lemma RootsApart(a: seq<Tree>, b: seq<Tree>)
    requires Apart(a) && Apart(b) && AllIds(a) !! AllIds(b)
    ensures Distinct(Roots(a) + Roots(b))
  {
    ApartSplit(a, b);
    RootsDistinct(a + b);
    assert Roots(a + b) == Roots(a) + Roots(b);
  }

  lemma RootsShown(nodes: Nodes, ts: seq<Tree>, parent: Option<Id>)
    requires ShowsAll(nodes, ts, parent)
    ensures forall id | id in Roots(ts) :: id in nodes
  {
    hide Shows;
    forall id | id in Roots(ts) ensures id in nodes {
      var i :| 0 <= i < |ts| && Roots(ts)[i] == id;
      assert HasParent(nodes, ts[i].id, parent);
    }
  }

  lemma ClearingFacts(start: Nodes, nodes: Nodes, parent: Id, placed: seq<Id>, left: seq<Id>, touched: set<Id>)
    requires Clearing(start, nodes, parent, placed, left, touched) && left != []
    ensures parent in nodes && left[0] in nodes && left[0] != parent
  {
    assert left[0] in left;
  }

  lemma ClearingStep(
    start: Nodes, mid: Nodes, after: Nodes, parent: Id, placed: seq<Id>, left: seq<Id>, touched: set<Id>)
    requires Clearing(start, mid, parent, placed, left, touched) && left != [] && parent in mid && parent in after
    requires SameElsewhere(mid, after, {parent, left[0]})
    requires after[parent] == mid[parent].(children := Removed(mid[parent].children, left[0]))
    ensures Clearing(start, after, parent, placed, left[1..], touched)
  {
    assert left[0] in left;
    RemovedMiddle(placed, left);
    ElsewhereMore(mid, after, {parent, left[0]}, touched);
    hide Distinct;
    ElsewhereTrans(start, mid, after, touched);
  }

  lemma ClearingEnd(start: Nodes, nodes: Nodes, parent: Id, previous: seq<Id>, used: set<Id>, left: seq<Id>,
                    chosen: seq<Tree>, touched: set<Id>)
    requires Clearing(start, nodes, parent, Roots(chosen), left, touched)
      && left == Unused(previous[|previous|..], used)
    requires ShowsAll(start, chosen, Some(parent)) && AllIds(chosen) !! touched
    ensures parent in nodes && nodes[parent] == start[parent].(children := Roots(chosen))
    ensures SameElsewhere(start, nodes, touched) && ShowsAll(nodes, chosen, Some(parent))
  {
    assert left == [] && Roots(chosen) + left == Roots(chosen);
    ShowsAllElsewhere(start, nodes, touched, chosen, Some(parent));
  }

  lemma UnusedNext(ids: seq<Id>, i: nat, used: set<Id>)
    requires i < |ids|
    ensures var here, next := Unused(ids[i..], used), Unused(ids[i + 1..], used);
            if ids[i] in used then here == next else here != [] && here[0] == ids[i] && here[1..] == next
  {
    assert ids[i..][0] == ids[i] && ids[i..][1..] == ids[i + 1..];
  }

  class Document {
    var nodes: Nodes

    method RemoveChild(parent: Id, node: Id)
      requires parent in nodes && node in nodes && parent != node
      modifies this
      ensures SameElsewhere(old(nodes), nodes, {parent, node})
      ensures nodes[parent] == old(nodes)[parent].(children := Removed(old(nodes)[parent].children, node))
      ensures nodes[node] == old(nodes)[node].(parent := None)
    {
      var p, n := nodes[parent], nodes[node];
      nodes := nodes[parent := p.(children := Removed(p.children, node))][node := n.(parent := None)];
    }

    /** Takes the node from wherever it is. */
    method InsertBefore(parent: Id, node: Id, before: Option<Id>)
      requires parent in nodes && node in nodes && parent != node
      requires nodes[node].parent.Some? ==> nodes[node].parent.value in nodes && nodes[node].parent.value != node
      modifies this
      ensures SameElsewhere(old(nodes), nodes, {parent, node} + Opt(old(nodes)[node].parent))
      ensures nodes[parent] == old(nodes)[parent].(children := Inserted(old(nodes)[parent].children, node, before))
      ensures nodes[node] == old(nodes)[node].(parent := Some(parent))
    {
      var owner := nodes[node].parent;
      if owner.Some? && owner.value != parent {
        nodes := nodes[owner.value := nodes[owner.value].(children := Removed(nodes[owner.value].children, node))];
      }
      var p, n := nodes[parent], nodes[node];
      nodes := nodes[parent := p.(children := Inserted(p.children, node, before))][node := n.(parent := Some(parent))];
    }

    method FindCurrent(previous: seq<Id>, used: set<Id>, next: Id) returns (found: Option<Id>)
      requires next in nodes && forall id | id in previous :: id in nodes
      ensures found == FirstMatch(nodes, previous, used, nodes[next].face)
    {
      assert previous[0..] == previous;
      for i := 0 to |previous|
        invariant FirstMatch(nodes, previous, used, nodes[next].face) ==
          FirstMatch(nodes, previous[i..], used, nodes[next].face)
      {
        var id := previous[i];
        assert previous[i..][0] == id && previous[i..][1..] == previous[i + 1..];
        if id !in used && SameFaceKind(nodes[id].face, nodes[next].face) {
          return Some(id);
        }
      }
      return None;
    }

    method PatchAttributes(current: Id, next: Id)
      requires current in nodes && next in nodes && current != next
      requires nodes[current].face.ElementFace? && nodes[next].face.ElementFace?
      modifies this
      ensures SameElsewhere(old(nodes), nodes, {current})
      ensures var was, wantedFace := old(nodes)[current], old(nodes)[next].face;
              nodes[current] == was.(face :=
                was.face.(attrs := PatchedAttrs(was.face.tag, was.face.attrs, wantedFace.attrs)))
    {
      var was, wanted := nodes[current], nodes[next].face.attrs;
      ghost var before, target := nodes, PatchedAttrs(was.face.tag, was.face.attrs, wanted);
      var attrs := RemoveStale(was.face.tag, was.face.attrs, wanted);
      attrs := SetWanted(attrs, wanted);
      assert attrs == target;
      nodes := nodes[current := was.(face := was.face.(attrs := attrs))];
    }

    method RemoveStale(
      tag: string, attrs: map<string, string>, wanted: map<string, string>) returns (kept: map<string, string>)
      ensures forall a :: a in kept <==> a in attrs && (a in wanted || (tag == "DETAILS" && a == "open"))
      ensures forall a | a in kept :: kept[a] == attrs[a]
    {
      hide IsLeast;
      kept := attrs;
      var todo := attrs.Keys;
      while todo != {}
        invariant todo <= attrs.Keys
        invariant forall a :: a in kept <==>
          a in attrs && (a in todo || a in wanted || (tag == "DETAILS" && a == "open"))
        invariant forall a | a in kept :: kept[a] == attrs[a]
        decreases |todo|
      {
        var a := FirstKey(todo);
        todo := todo - {a};
        if !(tag == "DETAILS" && a == "open") && a !in wanted {
          kept := kept - {a};
        }
      }
    }

    method SetWanted(attrs: map<string, string>, wanted: map<string, string>) returns (filled: map<string, string>)
      ensures forall a :: a in filled <==> a in attrs || a in wanted
      ensures forall a | a in filled :: filled[a] == if a in wanted then wanted[a] else attrs[a]
    {
      hide IsLeast;
      filled := attrs;
      var todo := wanted.Keys;
      while todo != {}
        invariant todo <= wanted.Keys
        invariant forall a :: a in filled <==> a in attrs || (a in wanted && a !in todo)
        invariant forall a | a in filled :: filled[a] == if a in wanted && a !in todo then wanted[a] else attrs[a]
        decreases |todo|
      {
        var a := FirstKey(todo);
        todo := todo - {a};
        if a !in filled || filled[a] != wanted[a] {
          filled := filled[a := wanted[a]];
        }
      }
    }

    /** Attributes and action of the node itself. */
    method PatchOwn(current: Id, next: Id)
      requires current in nodes && next in nodes && current != next
      requires nodes[current].face.ElementFace? && nodes[next].face.ElementFace?
      modifies this
      ensures SameElsewhere(old(nodes), nodes, {current})
      ensures var was, wanted := old(nodes)[current], old(nodes)[next].face;
              nodes[current] == was.(face := ElementFace(was.face.tag,
                PatchedAttrs(was.face.tag, was.face.attrs, wanted.attrs),
                if wanted.action.Some? then wanted.action else was.face.action))
    {
      PatchAttributes(current, next);
      if nodes[next].face.action.Some? {
        nodes := nodes[current := nodes[current].(face := nodes[current].face.(action := nodes[next].face.action))];
      }
    }

    method PatchText(current: Id, next: Id)
      requires current in nodes && next in nodes && nodes[current].face.TextFace? && nodes[next].face.TextFace?
      modifies this
      ensures SameElsewhere(old(nodes), nodes, {current})
      ensures nodes[current] == old(nodes)[current].(face := old(nodes)[next].face)
    {
      if nodes[current].face.text != nodes[next].face.text {
        nodes := nodes[current := nodes[current].(face := nodes[next].face)];
      }
    }

    method PatchNode(current: Id, next: Id, ghost c: Tree, ghost n: Tree)
      requires current == c.id && next == n.id && SameKind(c, n)
      requires Shows(nodes, c) && Shows(nodes, n) && Sound(c) && Sound(n) && Ids(c) !! Ids(n)
      modifies this
      ensures Shows(nodes, Patched(c, n)) && current in nodes && nodes[current].parent == old(nodes)[current].parent
      ensures SameElsewhere(old(nodes), nodes, Ids(c) + Ids(n))
      decreases n, 0
    {
      RootInIds(c);
      RootInIds(n);
      if nodes[current].face.TextFace? {
        PatchText(current, next);
        ElsewhereMore(old(nodes), nodes, {current}, Ids(c) + Ids(n));
      } else {
        PatchElement(current, next, c, n);
      }
    }

    method PatchElement(current: Id, next: Id, ghost c: Tree, ghost n: Tree)
      requires c.Element? && n.Element? && current == c.id && next == n.id && SameKind(c, n)
      requires Shows(nodes, c) && Shows(nodes, n) && Sound(c) && Sound(n) && Ids(c) !! Ids(n)
      modifies this
      ensures Shows(nodes, Patched(c, n)) && current in nodes && nodes[current].parent == old(nodes)[current].parent
      ensures SameElsewhere(old(nodes), nodes, Ids(c) + Ids(n))
      decreases n.children, 4
    {
      RootInIds(c);
      RootInIds(n);
      KidsShown(nodes, c);
      KidsShown(nodes, n);
      PatchOwn(current, next);
      ghost var mid := nodes;
      ShowsAllElsewhere(old(nodes), mid, {current}, c.children, Some(current));
      ShowsAllElsewhere(old(nodes), mid, {current}, n.children, Some(next));
      hide ShowsAll, Shows, Reconciled, PatchedAttrs;
      PatchChildren(current, next, c, n);
      ElsewhereMore(old(nodes), mid, {current}, Ids(c) + Ids(n));
      ElsewhereTrans(old(nodes), mid, nodes, Ids(c) + Ids(n));
      ShownFromKids(nodes, Patched(c, n));
    }

    method PatchChildren(current: Id, next: Id, ghost c: Tree, ghost n: Tree)
      requires c.Element? && n.Element? && current == c.id && next == n.id
      requires Sound(c) && Sound(n) && Ids(c) !! Ids(n)
      requires current in nodes && nodes[current].children == Roots(c.children)
        && ShowsAll(nodes, c.children, Some(current))
      requires next in nodes && nodes[next].children == Roots(n.children) && ShowsAll(nodes, n.children, Some(next))
      modifies this
      ensures current in nodes
        && nodes[current] == old(nodes)[current].(children := Roots(Reconciled(c.children, n.children)))
      ensures ShowsAll(nodes, Reconciled(c.children, n.children), Some(current))
      ensures SameElsewhere(old(nodes), nodes, Ids(c) + Ids(n))
      decreases n.children, 3
    {
      ReconcileChildren(current, nodes[next].children, Some(next), c.children, n.children);
    }

    /** The parent ends up with exactly the reconciled children, in order. */
    method ReconcileChildren(
      parent: Id, nextChildren: seq<Id>, ghost donor: Option<Id>, ghost olds: seq<Tree>, ghost nexts: seq<Tree>)
      requires parent in nodes && nodes[parent].children == Roots(olds) && nextChildren == Roots(nexts)
      requires ShowsAll(nodes, olds, Some(parent)) && ShowsAll(nodes, nexts, donor)
        && (donor.Some? ==> donor.value in nodes)
      requires Separate(parent, donor, [], olds, nexts)
      modifies this
      ensures parent in nodes && nodes[parent] == old(nodes)[parent].(children := Roots(Reconciled(olds, nexts)))
      ensures ShowsAll(nodes, Reconciled(olds, nexts), Some(parent))
      ensures SameElsewhere(old(nodes), nodes, Touched(parent, donor, olds, nexts))
      decreases nexts, 2
    {
      var previous := nodes[parent].children;
      var used := {};
      ghost var chosen, rest, tail := [], olds, nexts;
      ghost var touched := Touched(parent, donor, olds, nexts);
      UnderwayStart(nodes, parent, donor, olds, nexts);
      hide Underway, Separate, ShowsAll, Reconciled, SameElsewhere, Becomes, Left, Roots, OnTrack, Touched;
      ElsewhereSelf(nodes, touched);
      OnTrackStart(olds, nexts);
      for index := 0 to |nextChildren|
        invariant Underway(nodes, parent, donor, previous, used, chosen, rest, tail) && parent in nodes
        invariant OnTrack(olds, nexts, index, chosen, rest, tail)
        invariant SameElsewhere(old(nodes), nodes, touched)
        invariant nodes[parent] == old(nodes)[parent].(children := nodes[parent].children)
      {
        ghost var before := nodes;
        RestApart(nodes, parent, donor, previous, used, chosen, rest, tail);
        OnTrackStep(olds, nexts, index, chosen, rest, tail);
        TouchedLess(parent, donor, olds, nexts, index, chosen, rest, tail);
        var node := Advance(parent, nextChildren[index], index, previous, used, donor, chosen, rest, tail);
        ElsewhereMore(before, nodes, Touched(parent, donor, rest, tail), touched);
        ElsewhereTrans(old(nodes), before, nodes, touched);
        used := used + {node};
        chosen, rest, tail := chosen + [Becomes(rest, tail[0])], Left(rest, tail[0]), tail[1..];
      }
      ghost var before := nodes;
      TouchedLess(parent, donor, olds, nexts, |nexts|, chosen, rest, tail);
      OnTrackEnd(olds, nexts, chosen, rest, tail);
      RemoveUnused(parent, previous, used, donor, chosen, rest);
      ElsewhereMore(before, nodes, {parent} + AllIds(rest), touched);
      ElsewhereTrans(old(nodes), before, nodes, touched);
    }

    /** One turn of the loop: finds or inserts the node for the next new child and puts it in place. */
    method Advance(parent: Id, next: Id, index: nat, previous: seq<Id>, used: set<Id>, ghost donor: Option<Id>,
                   ghost chosen: seq<Tree>, ghost rest: seq<Tree>, ghost tail: seq<Tree>)
      returns (node: Id)
      requires Underway(nodes, parent, donor, previous, used, chosen, rest, tail)
      requires tail != [] && next == tail[0].id && index == |chosen|
      modifies this
      ensures node == Becomes(rest, tail[0]).id
      ensures Underway(nodes, parent, donor, previous, used + {node}, chosen + [Becomes(rest, tail[0])],
                       Left(rest, tail[0]), tail[1..])
      ensures SameElsewhere(old(nodes), nodes, Touched(parent, donor, rest, tail)) && parent in nodes
      ensures nodes[parent] == old(nodes)[parent].(children := nodes[parent].children)
      decreases tail, 1
    {
      hide ShowsAll, Shows, Separate, Becomes, Left, Settling, Unused;
      ghost var before := nodes;
      node := Settle(parent, next, previous, used, donor, chosen, rest, tail);
      ghost var mid := nodes;
      AfterSettling(before, mid, parent, donor, chosen, rest, tail);
      PlaceFacts(parent, donor, chosen, rest, tail);
      SettlingApart(parent, donor, chosen, rest, tail);
      SeparateStep(parent, donor, chosen, rest, tail);
      PutInPlace(parent, node, index, Roots(chosen), Roots(rest));
      AfterPlacing(mid, nodes, parent, donor, chosen, rest, tail);
      UnusedLess(previous, used, node);
    }

    /** Patches the old node that takes over, or lets the new one in. */
    method Settle(parent: Id, next: Id, previous: seq<Id>, used: set<Id>, ghost donor: Option<Id>,
                  ghost chosen: seq<Tree>, ghost rest: seq<Tree>, ghost tail: seq<Tree>)
      returns (node: Id)
      requires Underway(nodes, parent, donor, previous, used, chosen, rest, tail)
      requires tail != [] && next == tail[0].id
      modifies this
      ensures node == Becomes(rest, tail[0]).id && Shows(nodes, Becomes(rest, tail[0])) && node in nodes
      ensures nodes[node].parent == (if Find(rest, tail[0]) < |rest| then Some(parent) else donor)
      ensures SameElsewhere(old(nodes), nodes, Settling(rest, tail[0]))
      decreases tail, 0
    {
      var current := FindCurrent(previous, used, next);
      ghost var f := Find(rest, tail[0]);
      FirstMatchIsFind(nodes, previous, used, rest, tail[0]);
      if current.Some? {
        node := current.value;
        SeparateStep(parent, donor, chosen, rest, tail);
        ApartWithout(rest, f);
        PatchNode(node, next, rest[f], tail[0]);
        PatchedLike(rest[f], tail[0]);
      } else {
        node := next;
      }
    }

    method PutInPlace(parent: Id, node: Id, index: nat, ghost placed: seq<Id>, ghost others: seq<Id>)
      requires parent in nodes && node in nodes && parent != node
      requires nodes[parent].children == placed + others && |placed| == index && Distinct(placed + others)
        && node !in placed
      requires nodes[node].parent.Some? ==> nodes[node].parent.value in nodes && nodes[node].parent.value != node
      requires node in others ==> nodes[node].parent == Some(parent)
      modifies this
      ensures SameElsewhere(old(nodes), nodes, {parent, node} + Opt(old(nodes)[node].parent))
      ensures nodes[parent] == old(nodes)[parent].(children := placed + [node] + Removed(others, node))
      ensures nodes[node] == old(nodes)[node].(parent := Some(parent))
    {
      var children := nodes[parent].children;
      var at := if index < |children| then Some(children[index]) else None;
      assert others != [] ==> children[index] == others[0];
      if at != Some(node) {
        InsertedAt(placed, others, node);
        InsertBefore(parent, node, at);
      } else {
        FirstRemoved(placed, others);
      }
    }

    method RemoveUnused(parent: Id, previous: seq<Id>, used: set<Id>, ghost donor: Option<Id>,
                        ghost chosen: seq<Tree>, ghost rest: seq<Tree>)
      requires Underway(nodes, parent, donor, previous, used, chosen, rest, [])
      modifies this
      ensures parent in nodes && nodes[parent] == old(nodes)[parent].(children := Roots(chosen))
      ensures ShowsAll(nodes, chosen, Some(parent))
      ensures SameElsewhere(old(nodes), nodes, {parent} + AllIds(rest))
    {
      ghost var start, left, touched := nodes, Roots(rest), {parent} + AllIds(rest);
      ClearingStart(nodes, parent, donor, previous, used, chosen, rest);
      assert previous[0..] == previous;
      assert ShowsAll(start, chosen, Some(parent)) && AllIds(chosen) !! touched;
      hide ShowsAll, Underway, Clearing, Unused, SameElsewhere, Roots;
      for i := 0 to |previous|
        invariant left == Unused(previous[i..], used) && Clearing(start, nodes, parent, Roots(chosen), left, touched)
      {
        var id := previous[i];
        UnusedNext(previous, i, used);
        if id !in used {
          ghost var mid := nodes;
          ClearingFacts(start, nodes, parent, Roots(chosen), left, touched);
          RemoveChild(parent, id);
          ClearingStep(start, mid, nodes, parent, Roots(chosen), left, touched);
        }
        left := Unused(previous[i + 1..], used);
      }
      ClearingEnd(start, nodes, parent, previous, used, left, chosen, touched);
    }
  }
}
