/** Loops that turn one map into another by visiting the keys still to do, and the size of what they visit. */
module KeyLoops {
  lemma {:induction false} SubsetSize<T>(a: set<T>, b: set<T>)
    requires a <= b
    ensures |a| <= |b|
    decreases |a|
  {
    if a != {} {
      var x :| x in a;
      SubsetSize(a - {x}, b - {x});
    }
  }

  /** `m` is `start` on the keys still to do and `target` on every other. */
  ghost predicate Filled<T>(m: map<string, T>, start: map<string, T>, target: map<string, T>, todo: set<string>) {
    && (forall k :: k in m <==> if k in todo then k in start else k in target)
    && (forall k | k in m :: m[k] == if k in todo then start[k] else target[k])
  }

  lemma FillStart<T>(start: map<string, T>, target: map<string, T>, todo: set<string>)
    requires forall k | k !in todo :: k in start <==> k in target
    requires forall k | k !in todo && k in start :: start[k] == target[k]
    ensures Filled(start, start, target, todo)
  {
  }

  lemma FillStep<T>(m: map<string, T>, start: map<string, T>, target: map<string, T>, todo: set<string>, k: string)
    requires Filled(m, start, target, todo) && k in target
    ensures Filled(m[k := target[k]], start, target, todo - {k})
  {
  }

  lemma FillUntouched<T>(m: map<string, T>, start: map<string, T>, target: map<string, T>, todo: set<string>, k: string)
    requires Filled(m, start, target, todo) && k in todo
    ensures k in m <==> k in start
    ensures k in m ==> m[k] == start[k]
  {
  }

  lemma FillDone<T>(m: map<string, T>, start: map<string, T>, target: map<string, T>)
    requires Filled(m, start, target, {})
    ensures m == target
  {
  }
}
