/** The page itself: nodes in a document, each with its attributes, children and parent, reconciled in place. */
module Dashboard {
  import opened Clocks
  import opened DashboardTrees
  import opened KeyLoops

  datatype Face =
    | TextFace(text: string)
    | ElementFace(tag: string, attrs: map<string, string>, action: Option<Action>)

  datatype Data = Data(face: Face, children: seq<Id>, parent: Option<Id>)

  type Nodes = map<Id, Data>

  function FaceOf(t: Tree): Face {
    match t
    case Text(_, text) => TextFace(text)
    case Element(_, tag, attrs, action, _) => ElementFace(tag, attrs, action)
  }

  function Kids(t: Tree): seq<Tree> {
    if t.Text? then [] else t.children
  }

  function Roots(ts: seq<Tree>): (ids: seq<Id>)
    ensures |ids| == |ts| && forall i | 0 <= i < |ts| :: ids[i] == ts[i].id
  {
    seq(|ts|, i requires 0 <= i < |ts| => ts[i].id)
  }

  predicate SameFaceKind(a: Face, b: Face) {
    || (a.TextFace? && b.TextFace?)
    || (a.ElementFace? && b.ElementFace? && a.tag == b.tag && DomKey(a.attrs) == DomKey(b.attrs))
  }

  // ----- Documents as trees

  /** The document holds `t`, with its identities, below `t.id`. */
  ghost predicate Shows(nodes: Nodes, t: Tree)
    decreases t
  {
    && t.id in nodes && nodes[t.id].face == FaceOf(t) && nodes[t.id].children == Roots(Kids(t))
    && forall i | 0 <= i < |Kids(t)| :: HasParent(nodes, Kids(t)[i].id, Some(t.id)) && Shows(nodes, Kids(t)[i])
  }

  predicate HasParent(nodes: Nodes, id: Id, parent: Option<Id>) {
    id in nodes && nodes[id].parent == parent
  }

  ghost predicate ShowsAll(nodes: Nodes, ts: seq<Tree>, parent: Option<Id>) {
    forall i | 0 <= i < |ts| :: HasParent(nodes, ts[i].id, parent) && Shows(nodes, ts[i])
  }

  ghost function Ids(t: Tree): set<Id>
    decreases t
  {
    match t
    case Text(id, _) => {id}
    case Element(id, _, _, _, children) => {id} + AllIds(children)
  }

  ghost function AllIds(ts: seq<Tree>): set<Id>
    decreases ts
  {
    if ts == [] then {} else Ids(ts[0]) + AllIds(ts[1..])
  }

  /** No identity occurs twice. */
  ghost predicate Sound(t: Tree)
    decreases t
  {
    match t
    case Text(_, _) => true
    case Element(id, _, _, _, children) => id !in AllIds(children) && Apart(children)
  }

  ghost predicate Apart(ts: seq<Tree>)
    decreases ts
  {
    ts == [] || (Sound(ts[0]) && Apart(ts[1..]) && Ids(ts[0]) !! AllIds(ts[1..]))
  }

  lemma {:induction false} ApartSplit(a: seq<Tree>, b: seq<Tree>)
    ensures AllIds(a + b) == AllIds(a) + AllIds(b)
    ensures Apart(a + b) <==> Apart(a) && Apart(b) && AllIds(a) !! AllIds(b)
  {
    if a == [] {
      assert a + b == b;
    } else {
      assert (a + b)[0] == a[0] && (a + b)[1..] == a[1..] + b;
      ApartSplit(a[1..], b);
    }
  }

  lemma ApartOne(t: Tree)
    ensures AllIds([t]) == Ids(t) && (Apart([t]) <==> Sound(t))
  {
    assert [t][1..] == [];
  }

  lemma RootInIds(t: Tree)
    ensures t.id in Ids(t)
  {
  }

  lemma ApartInsert(a: seq<Tree>, t: Tree, b: seq<Tree>)
    ensures Apart(a + ([t] + b)) <==> Sound(t) && Apart(a + b) && Ids(t) !! AllIds(a + b)
    ensures AllIds(a + ([t] + b)) == Ids(t) + AllIds(a + b)
  {
    hide Apart, AllIds, Ids, Sound;
    ApartSplit(a, [t] + b);
    ApartSplit([t], b);
    ApartSplit(a, b);
    ApartOne(t);
  }

  /** Taking one tree out of a list leaves it apart from the rest. */
  lemma ApartWithout(ts: seq<Tree>, i: nat)
    requires i < |ts| && Apart(ts)
    ensures Sound(ts[i]) && Apart(Without(ts, i)) && Ids(ts[i]) !! AllIds(Without(ts, i))
    ensures AllIds(ts) == Ids(ts[i]) + AllIds(Without(ts, i))
  {
    hide Apart, AllIds, Ids, Sound, Without;
    SplitAt(ts, i);
    ApartInsert(ts[..i], ts[i], ts[i + 1..]);
  }

  lemma {:induction false} PatchedSound(current: Tree, next: Tree)
    requires Sound(current) && Sound(next) && Ids(current) !! Ids(next)
    ensures Sound(Patched(current, next)) && Ids(Patched(current, next)) <= Ids(current) + Ids(next)
    decreases next
  {
    if next.Element? && current.Element? {
      ReconciledApart(current.children, next.children);
    }
  }

  /** Reconciling never makes a node appear twice, and invents none. */
  lemma {:induction false} ReconciledApart(olds: seq<Tree>, nexts: seq<Tree>)
    requires Apart(olds) && Apart(nexts) && AllIds(olds) !! AllIds(nexts)
    ensures Apart(Reconciled(olds, nexts)) && AllIds(Reconciled(olds, nexts)) <= AllIds(olds) + AllIds(nexts)
    decreases nexts
  {
    if nexts != [] {
      var i, n, rest := Find(olds, nexts[0]), nexts[0], nexts[1..];
      if i == |olds| {
        var r := Reconciled(olds, rest);
        ReconciledApart(olds, rest);
        assert ([n] + r)[1..] == r;
      } else {
        ApartWithout(olds, i);
        PatchedSound(olds[i], n);
        var t, r := Patched(olds[i], n), Reconciled(Without(olds, i), rest);
        ReconciledApart(Without(olds, i), rest);
        assert ([t] + r)[1..] == r;
      }
    }
  }

  /** What a tree shows depends on its own nodes only. */
  lemma {:induction false} ShowsFrame(before: Nodes, after: Nodes, t: Tree)
    requires Shows(before, t) && forall id | id in Ids(t) :: id in before && id in after && after[id] == before[id]
    ensures Shows(after, t)
    decreases t
  {
    RootInIds(t);
    forall i | 0 <= i < |Kids(t)| ensures HasParent(after, Kids(t)[i].id, Some(t.id)) && Shows(after, Kids(t)[i]) {
      KidIds(t, i);
      ShowsFrame(before, after, Kids(t)[i]);
    }
  }

  lemma KidIds(t: Tree, i: nat)
    requires i < |Kids(t)|
    ensures Ids(Kids(t)[i]) <= Ids(t) && Kids(t)[i].id in Ids(t)
  {
    MemberIds(t.children, i);
    RootInIds(t.children[i]);
  }

  lemma {:induction false} MemberIds(ts: seq<Tree>, i: nat)
    requires i < |ts|
    ensures Ids(ts[i]) <= AllIds(ts) && ts[i].id in AllIds(ts)
  {
    RootInIds(ts[i]);
    if i > 0 { MemberIds(ts[1..], i - 1); }
  }

  lemma {:induction false} ShowsInside(nodes: Nodes, t: Tree)
    requires Shows(nodes, t)
    ensures Ids(t) <= nodes.Keys
    decreases t
  {
    if t.Element? { ShowsInsideAll(nodes, t.children); }
  }

  lemma {:induction false} ShowsInsideAll(nodes: Nodes, ts: seq<Tree>)
    requires forall i | 0 <= i < |ts| :: Shows(nodes, ts[i])
    ensures AllIds(ts) <= nodes.Keys
    decreases ts
  {
    if ts != [] {
      ShowsInside(nodes, ts[0]);
      ShowsInsideAll(nodes, ts[1..]);
    }
  }

  lemma ShowsAllFrame(before: Nodes, after: Nodes, ts: seq<Tree>, parent: Option<Id>)
    requires ShowsAll(before, ts, parent)
    requires forall id | id in AllIds(ts) && id in before :: id in after && after[id] == before[id]
    ensures ShowsAll(after, ts, parent)
  {
    forall i | 0 <= i < |ts| ensures HasParent(after, ts[i].id, parent) && Shows(after, ts[i]) {
      MemberIds(ts, i);
      ShowsInside(before, ts[i]);
      ShowsFrame(before, after, ts[i]);
    }
  }

  // ----- Child lists

  predicate Distinct(ids: seq<Id>) {
    forall i, j | 0 <= i < j < |ids| :: ids[i] != ids[j]
  }

  function Removed(ids: seq<Id>, x: Id): seq<Id> {
    if ids == [] then [] else (if ids[0] == x then [] else [ids[0]]) + Removed(ids[1..], x)
  }

  function Place(ids: seq<Id>, x: Id): (i: nat)
    ensures i <= |ids|
  {
    if ids == [] || ids[0] == x then 0 else 1 + Place(ids[1..], x)
  }

  /** `insertBefore`: the node leaves its place, then goes before `before`, or last. */
  function Inserted(ids: seq<Id>, x: Id, before: Option<Id>): seq<Id> {
    var kept := Removed(ids, x);
    var i := if before.Some? then Place(kept, before.value) else |kept|;
    kept[..i] + [x] + kept[i..]
  }

  lemma {:induction false} RemovedAbsent(ids: seq<Id>, x: Id)
    requires x !in ids
    ensures Removed(ids, x) == ids
  {
    if ids != [] { RemovedAbsent(ids[1..], x); }
  }

  lemma {:induction false} RemovedSplit(a: seq<Id>, b: seq<Id>, x: Id)
    ensures Removed(a + b, x) == Removed(a, x) + Removed(b, x)
  {
    if a == [] {
      assert a + b == b;
    } else {
      assert (a + b)[0] == a[0] && (a + b)[1..] == a[1..] + b;
      RemovedSplit(a[1..], b, x);
    }
  }

  lemma {:induction false} RemovedAt(ids: seq<Id>, i: nat)
    requires i < |ids| && Distinct(ids)
    ensures Removed(ids, ids[i]) == Without(ids, i)
  {
    if i == 0 {
      RemovedAbsent(ids[1..], ids[0]);
    } else {
      RemovedAt(ids[1..], i - 1);
      assert Without(ids, i) == [ids[0]] + Without(ids[1..], i - 1);
    }
  }

  lemma {:induction false} PlaceAfter(a: seq<Id>, b: seq<Id>)
    requires b != [] && b[0] !in a
    ensures Place(a + b, b[0]) == |a|
  {
    if a == [] {
      assert a + b == b;
    } else {
      assert (a + b)[0] == a[0] && (a + b)[1..] == a[1..] + b;
      PlaceAfter(a[1..], b);
    }
  }

  /** Inserting before the first of the rest puts the node right after what is already in place. */
  lemma InsertedAt(a: seq<Id>, b: seq<Id>, x: Id)
    requires Distinct(a + b) && x !in a && (b != [] ==> b[0] != x)
    ensures Inserted(a + b, x, if b == [] then None else Some(b[0])) == a + [x] + Removed(b, x)
  {
    RemovedSplit(a, b, x);
    RemovedAbsent(a, x);
    if b != [] {
      assert Removed(b, x)[0] == b[0];
      assert forall i | 0 <= i < |a| :: (a + b)[i] == a[i] && (a + b)[|a|] == b[0];
      PlaceAfter(a, Removed(b, x));
    }
  }

  function Unused(ids: seq<Id>, used: set<Id>): seq<Id> {
    if ids == [] then [] else (if ids[0] in used then [] else [ids[0]]) + Unused(ids[1..], used)
  }

  lemma {:induction false} UnusedLess(ids: seq<Id>, used: set<Id>, x: Id)
    ensures Unused(ids, used + {x}) == Removed(Unused(ids, used), x)
  {
    if ids != [] {
      var head := if ids[0] in used then [] else [ids[0]];
      UnusedLess(ids[1..], used, x);
      RemovedSplit(head, Unused(ids[1..], used), x);
    }
  }

  lemma {:induction false} UnusedAll(ids: seq<Id>)
    ensures Unused(ids, {}) == ids
  {
    if ids != [] { UnusedAll(ids[1..]); }
  }

  /** The first unused old child of the same kind, as the page would find it. */
  function FirstMatch(nodes: Nodes, ids: seq<Id>, used: set<Id>, face: Face): Option<Id>
    requires forall id | id in ids :: id in nodes
  {
    if ids == [] then None
    else if ids[0] !in used && SameFaceKind(nodes[ids[0]].face, face) then Some(ids[0])
    else FirstMatch(nodes, ids[1..], used, face)
  }

  lemma FaceKinds(a: Tree, b: Tree)
    ensures SameFaceKind(FaceOf(a), FaceOf(b)) <==> SameKind(a, b)
  {
  }

  lemma {:induction false} FirstMatchIsFind(nodes: Nodes, ids: seq<Id>, used: set<Id>, rest: seq<Tree>, next: Tree)
    requires forall id | id in ids :: id in nodes
    requires Unused(ids, used) == Roots(rest)
    requires forall i | 0 <= i < |rest| :: rest[i].id in nodes && nodes[rest[i].id].face == FaceOf(rest[i])
    ensures var f := Find(rest, next);
            FirstMatch(nodes, ids, used, FaceOf(next)) == if f < |rest| then Some(rest[f].id) else None
  {
    if ids != [] {
      if ids[0] in used {
        FirstMatchIsFind(nodes, ids[1..], used, rest, next);
      } else {
        FaceKinds(rest[0], next);
        assert Roots(rest)[1..] == Roots(rest[1..]);
        if !SameKind(rest[0], next) { FirstMatchIsFind(nodes, ids[1..], used, rest[1..], next); }
      }
    }
  }

  lemma {:induction false} RootsDistinct(ts: seq<Tree>)
    requires Apart(ts)
    ensures Distinct(Roots(ts))
  {
    if ts != [] {
      RootsDistinct(ts[1..]);
      assert Roots(ts)[1..] == Roots(ts[1..]);
      forall j | 0 < j < |ts| ensures ts[j].id != ts[0].id {
        MemberIds(ts[1..], j - 1);
        RootInIds(ts[0]);
      }
      forall i, j | 0 <= i < j < |ts| ensures Roots(ts)[i] != Roots(ts)[j] {
        if i > 0 { assert Roots(ts[1..])[i - 1] != Roots(ts[1..])[j - 1]; }
      }
    }
  }
}
