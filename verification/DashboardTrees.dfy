/** What reconciling a rendered view into the page means, on trees whose nodes have an identity. */
module DashboardTrees {
  import opened Clocks

  type Id = nat
  type Action = nat

  datatype Tree =
    | Text(id: Id, text: string)
    | Element(id: Id, tag: string, attrs: map<string, string>, action: Option<Action>, children: seq<Tree>)

  function DomKey(attrs: map<string, string>): Option<string> {
    if "data-key" in attrs then Some(attrs["data-key"]) else None
  }

  predicate SameKind(a: Tree, b: Tree) {
    (a.Text? && b.Text?) || (a.Element? && b.Element? && a.tag == b.tag && DomKey(a.attrs) == DomKey(b.attrs))
  }

  /** The new attributes; only the `open` of a DETAILS stays although the new view has none. */
  function PatchedAttrs(tag: string, current: map<string, string>, next: map<string, string>): (m: map<string, string>)
    ensures forall a :: a in m <==> a in next || (a in current && tag == "DETAILS" && a == "open")
    ensures forall a | a in m :: m[a] == if a in next then next[a] else current[a]
  {
    map a | a in current.Keys + next.Keys && (a in next || (tag == "DETAILS" && a == "open")) ::
      if a in next then next[a] else current[a]
  }

  /** The first of `olds` that `next` may take over. */
  function Find(olds: seq<Tree>, next: Tree): (i: nat)
    ensures i <= |olds| && (i < |olds| ==> SameKind(olds[i], next)) && forall j | 0 <= j < i :: !SameKind(olds[j], next)
  {
    if olds == [] || SameKind(olds[0], next) then 0 else 1 + Find(olds[1..], next)
  }

  function Without<T>(s: seq<T>, i: nat): seq<T>
    requires i < |s|
  {
    s[..i] + s[i + 1..]
  }

  function Patched(current: Tree, next: Tree): Tree
    decreases next
  {
    match next
    case Text(_, text) => Text(current.id, text)
    case Element(_, tag, attrs, action, children) =>
      if current.Text? then next
      else Element(current.id, current.tag, PatchedAttrs(current.tag, current.attrs, attrs),
                   if action.Some? then action else current.action, Reconciled(current.children, children))
  }

  /** Each new child in turn takes over the first old one of its kind, or comes in itself; leftovers go. */
  function Reconciled(olds: seq<Tree>, nexts: seq<Tree>): (r: seq<Tree>)
    ensures |r| == |nexts|
    decreases nexts
  {
    if nexts == [] then []
    else
      var i := Find(olds, nexts[0]);
      if i == |olds| then [nexts[0]] + Reconciled(olds, nexts[1..])
      else [Patched(olds[i], nexts[0])] + Reconciled(Without(olds, i), nexts[1..])
  }

  // ----- The page shows the new view

  predicate AttrsLike(tag: string, shown: map<string, string>, next: map<string, string>) {
    && (forall a | a in next :: a in shown && shown[a] == next[a])
    && (forall a | a in shown :: a in next || (tag == "DETAILS" && a == "open"))
  }

  /** Same kind, text, attributes and children in order, all the way down; only `open` on a DETAILS may be extra. */
  predicate Like(shown: Tree, next: Tree)
    decreases next
  {
    match next
    case Text(_, text) => shown.Text? && shown.text == text
    case Element(_, tag, attrs, action, children) =>
      && shown.Element? && shown.tag == tag && AttrsLike(tag, shown.attrs, attrs)
      && (action.Some? ==> shown.action == action)
      && |shown.children| == |children|
      && forall i | 0 <= i < |children| :: Like(shown.children[i], children[i])
  }

  lemma {:induction false} LikeSelf(t: Tree)
    ensures Like(t, t)
  {
    if t.Element? {
      forall i | 0 <= i < |t.children| ensures Like(t.children[i], t.children[i]) { LikeSelf(t.children[i]); }
    }
  }

  lemma LikeIsSameKind(shown: Tree, next: Tree)
    requires Like(shown, next)
    ensures SameKind(shown, next)
  {
    if next.Element? { assert "data-key" in shown.attrs ==> "data-key" in next.attrs; }
  }

  lemma {:induction false} PatchedLike(current: Tree, next: Tree)
    requires SameKind(current, next)
    ensures Like(Patched(current, next), next) && Patched(current, next).id == current.id
    decreases next
  {
    if next.Element? { ReconciledLike(current.children, next.children); }
  }

  /** For all old and new children, with any repetition of keys and any reordering, the outcome shows the new ones
      in order. */
  lemma {:induction false} ReconciledLike(olds: seq<Tree>, nexts: seq<Tree>)
    ensures forall i | 0 <= i < |nexts| :: Like(Reconciled(olds, nexts)[i], nexts[i])
    decreases nexts
  {
    if nexts != [] {
      var i := Find(olds, nexts[0]);
      if i == |olds| {
        LikeSelf(nexts[0]);
        ReconciledLike(olds, nexts[1..]);
      } else {
        PatchedLike(olds[i], nexts[0]);
        ReconciledLike(Without(olds, i), nexts[1..]);
      }
    }
  }

  /** Patching changes nothing exactly when the node already shows the new view. */
  lemma {:induction false} StableIffLike(current: Tree, next: Tree)
    requires SameKind(current, next)
    ensures Patched(current, next) == current <==> Like(current, next)
    decreases next
  {
    PatchedLike(current, next);
    if next.Element? && Like(current, next) {
      var attrs := PatchedAttrs(current.tag, current.attrs, next.attrs);
      assert attrs.Keys == current.attrs.Keys;
      assert attrs == current.attrs;
      StableChildren(current.children, next.children);
    }
  }

  /** Rendering an unchanged view again leaves every child exactly as it is, in place. */
  lemma {:induction false} StableChildren(olds: seq<Tree>, nexts: seq<Tree>)
    requires |olds| == |nexts| && forall i | 0 <= i < |nexts| :: Like(olds[i], nexts[i])
    ensures Reconciled(olds, nexts) == olds
    decreases nexts
  {
    if nexts != [] {
      LikeIsSameKind(olds[0], nexts[0]);
      StableIffLike(olds[0], nexts[0]);
      assert Find(olds, nexts[0]) == 0 && Without(olds, 0) == olds[1..];
      StableChildren(olds[1..], nexts[1..]);
      assert [olds[0]] + olds[1..] == olds;
    }
  }

  lemma SplitAt<T>(s: seq<T>, i: nat)
    requires i < |s|
    ensures s == s[..i] + ([s[i]] + s[i + 1..]) && Without(s, i) == s[..i] + s[i + 1..]
  {
  }

  // ----- Who keeps its identity

  function OfKind(ts: seq<Tree>, kind: Tree): seq<Tree> {
    if ts == [] then [] else (if SameKind(ts[0], kind) then [ts[0]] else []) + OfKind(ts[1..], kind)
  }

  lemma {:induction false} OfKindSplit(a: seq<Tree>, b: seq<Tree>, kind: Tree)
    ensures OfKind(a + b, kind) == OfKind(a, kind) + OfKind(b, kind)
  {
    hide SameKind;
    if a == [] {
      assert a + b == b;
    } else {
      OfKindSplit(a[1..], b, kind);
      Tail(a, b);
    }
  }

  lemma Tail<T>(a: seq<T>, b: seq<T>)
    requires a != []
    ensures (a + b)[0] == a[0] && (a + b)[1..] == a[1..] + b
  {
  }

  lemma {:induction false} NoneOfKind(ts: seq<Tree>, kind: Tree)
    requires forall t | t in ts :: !SameKind(t, kind)
    ensures OfKind(ts, kind) == []
  {
    if ts != [] { NoneOfKind(ts[1..], kind); }
  }

  lemma KindTrans(a: Tree, b: Tree, kind: Tree)
    requires SameKind(a, b)
    ensures SameKind(a, kind) <==> SameKind(b, kind)
  {
  }

  lemma OfKindInsert(a: seq<Tree>, t: Tree, b: seq<Tree>, kind: Tree)
    ensures OfKind(a + ([t] + b), kind) == OfKind(a, kind) + ((if SameKind(t, kind) then [t] else []) + OfKind(b, kind))
  {
    OfKindSplit(a, [t] + b, kind);
    assert ([t] + b)[1..] == b;
  }

  lemma NoneBefore(olds: seq<Tree>, next: Tree, kind: Tree)
    requires SameKind(next, kind)
    ensures OfKind(olds[..Find(olds, next)], kind) == []
  {
    var a := olds[..Find(olds, next)];
    forall u | u in a ensures !SameKind(u, kind) {
      var j :| 0 <= j < |a| && a[j] == u;
      assert !SameKind(olds[j], next);
    }
    NoneOfKind(a, kind);
  }

  lemma TakeOut(a: seq<Tree>, t: Tree, b: seq<Tree>, kind: Tree)
    requires SameKind(t, kind) ==> OfKind(a, kind) == []
    ensures OfKind(a + ([t] + b), kind) == (if SameKind(t, kind) then [t] else []) + OfKind(a + b, kind)
  {
    OfKindInsert(a, t, b, kind);
    OfKindSplit(a, b, kind);
    hide OfKind, SameKind;
    var x, y := OfKind(a, kind), OfKind(b, kind);
    assert [] + y == y && [] + (x + y) == x + y && x + ([] + y) == x + y;
  }

  /** Taking the first old node of one kind out of the pool. */
  lemma TakeFirst(olds: seq<Tree>, next: Tree, kind: Tree)
    requires Find(olds, next) < |olds|
    ensures var i := Find(olds, next);
            OfKind(olds, kind) == (if SameKind(next, kind) then [olds[i]] else []) + OfKind(Without(olds, i), kind)
  {
    var i := Find(olds, next);
    KindTrans(olds[i], next, kind);
    hide OfKind, SameKind, Find, Without;
    if SameKind(next, kind) { NoneBefore(olds, next, kind); }
    TakeOut(olds[..i], olds[i], olds[i + 1..], kind);
    SplitAt(olds, i);
  }

  lemma NoneLeft(olds: seq<Tree>, next: Tree, kind: Tree)
    requires Find(olds, next) == |olds| && SameKind(next, kind)
    ensures OfKind(olds, kind) == []
  {
    NoneOfKind(olds, kind);
  }

  /** What the n-th new child of a kind becomes: it takes over the n-th old child of that kind, if there is one. */
  function ByRank(mine: seq<Tree>, rank: nat, next: Tree): Tree {
    if rank < |mine| then Patched(mine[rank], next) else next
  }

  lemma FirstByRank(olds: seq<Tree>, nexts: seq<Tree>)
    requires nexts != []
    ensures Reconciled(olds, nexts)[0] == ByRank(OfKind(olds, nexts[0]), 0, nexts[0])
  {
    if Find(olds, nexts[0]) < |olds| {
      TakeFirst(olds, nexts[0], nexts[0]);
    } else {
      NoneLeft(olds, nexts[0], nexts[0]);
    }
  }

  /** Dropping the first new child, and the old one it took over, shifts the ranks of its kind by one. */
  lemma RankShift(olds: seq<Tree>, nexts: seq<Tree>, i: nat)
    requires 0 < i < |nexts|
    ensures var f := Find(olds, nexts[0]);
            var left := if f < |olds| then Without(olds, f) else olds;
            ByRank(OfKind(olds, nexts[i]), |OfKind(nexts[..i], nexts[i])|, nexts[i]) ==
            ByRank(OfKind(left, nexts[i]), |OfKind(nexts[1..][..i - 1], nexts[i])|, nexts[i])
  {
    var f, kind, rest := Find(olds, nexts[0]), nexts[i], nexts[1..];
    if f < |olds| {
      TakeFirst(olds, nexts[0], kind);
    } else if SameKind(nexts[0], kind) {
      NoneLeft(olds, nexts[0], kind);
    }
    OfKindInsert([], nexts[0], rest[..i - 1], kind);
    hide SameKind, Patched, Find, Without;
    assert nexts[..i] == [] + ([nexts[0]] + rest[..i - 1]);
    assert OfKind([], kind) == [];
    hide OfKind;
  }

  /** The n-th new child of a kind takes over the n-th old child of that kind, wherever either stands; new
      children beyond the old ones come in as they are. */
  lemma {:induction false} MatchedByRank(olds: seq<Tree>, nexts: seq<Tree>, i: nat)
    requires i < |nexts|
    ensures Reconciled(olds, nexts)[i] == ByRank(OfKind(olds, nexts[i]), |OfKind(nexts[..i], nexts[i])|, nexts[i])
    decreases i
  {
    if i == 0 {
      FirstByRank(olds, nexts);
      assert nexts[..0] == [];
    } else {
      RankShift(olds, nexts, i);
      hide OfKind, ByRank, Patched;
      var f := Find(olds, nexts[0]);
      MatchedByRank(if f < |olds| then Without(olds, f) else olds, nexts[1..], i - 1);
    }
  }
}
