/** Laws of the skew heap: min-heap order, and logarithmic amortised cost. */
module SkewHeapLaws {
  import opened Powers
  import opened SkewHeap

  // ---- order ----

  /** `x` may be above `y`. */
  predicate AtMost<T>(comp: (T, T) -> int, x: T, y: T)
  {
    comp(y, x) != -1
  }

  /** The comparator answers -1 exactly for "strictly less" in some total preorder. */
  ghost predicate TotalPreorder<T(!new)>(comp: (T, T) -> int)
  {
    && (forall x, y :: AtMost(comp, x, y) || AtMost(comp, y, x))
    && (forall x, y, z :: AtMost(comp, x, y) && AtMost(comp, y, z) ==> AtMost(comp, x, z))
  }

  ghost predicate Ordered<T>(comp: (T, T) -> int, s: Tree<T>)
  {
    s.Branch? ==>
      && (s.left.Branch? ==> AtMost(comp, s.entry.data, s.left.entry.data))
      && (s.right.Branch? ==> AtMost(comp, s.entry.data, s.right.entry.data))
      && Ordered(comp, s.left) && Ordered(comp, s.right)
  }

  lemma {:induction false} RootIsMinimum<T(!new)>(comp: (T, T) -> int, s: Tree<T>, e: Entry<T>)
    requires TotalPreorder(comp) && Ordered(comp, s) && e in Entries(s)
    ensures AtMost(comp, s.entry.data, e.data)
  {
    if e == s.entry {
    } else if e in Entries(s.left) {
      RootIsMinimum(comp, s.left, e);
    } else {
      RootIsMinimum(comp, s.right, e);
    }
  }

  lemma {:induction false} MergedOrdered<T(!new)>(comp: (T, T) -> int, s: Tree<T>, t: Tree<T>)
    requires TotalPreorder(comp) && Ordered(comp, s) && Ordered(comp, t)
    ensures Ordered(comp, Merged(comp, s, t))
    decreases Size(s) + Size(t)
  {
    if s.Branch? && t.Branch? {
      var x, y := s.entry.data, t.entry.data;
      assert AtMost(comp, x, y) || AtMost(comp, y, x);
      if comp(x, y) == -1 {
        MergedOrdered(comp, s.right, t);
        MergedRoot(comp, s.right, t);
      } else {
        MergedOrdered(comp, s, t.right);
        MergedRoot(comp, s, t.right);
      }
    }
  }

  /** Of two roots the smaller stays on top, and of two equal ones that of the second heap: so an entry inserted beside
      its equals is found first. */
  lemma TiesGoToTheSecond<T>(comp: (T, T) -> int, s: Tree<T>, t: Tree<T>, b: Entry<T>)
    requires s.Branch? && t.Branch?
    ensures Root(Merged(comp, s, t)) == if AtMost(comp, t.entry.data, s.entry.data) then t.entry else s.entry
    ensures Root(Inserted(comp, s, b)) == if AtMost(comp, b.data, s.entry.data) then b else s.entry
  {
  }

  /** Removing the root of a heap leaves the smaller of its children on top, and of equal ones the right one. */
  lemma RemovedRoot<T>(comp: (T, T) -> int, s: Tree<T>)
    requires s.Branch? && s.left.Branch? && s.right.Branch?
    ensures Root(Removed(comp, s, s.entry)) ==
      if AtMost(comp, s.right.entry.data, s.left.entry.data) then s.right.entry else s.left.entry
  {
    PopRootRemoves(comp, s);
  }

  lemma InsertedOrdered<T(!new)>(comp: (T, T) -> int, s: Tree<T>, b: Entry<T>)
    requires TotalPreorder(comp) && Ordered(comp, s)
    ensures Ordered(comp, Inserted(comp, s, b))
  {
    MergedOrdered(comp, s, Branch(b, Nil, Nil));
  }

  lemma {:induction false} PlugOrdered<T(!new)>(comp: (T, T) -> int, s: Tree<T>, b: Entry<T>, u: Tree<T>)
    requires TotalPreorder(comp) && Ordered(comp, s) && b in Entries(s) && Ordered(comp, u)
    requires u.Branch? ==> u.entry in Entries(SubtreeAt(s, b))
    ensures Ordered(comp, Plug(s, b, u))
    ensures Plug(s, b, u).Branch? ==> Plug(s, b, u).entry in Entries(s)
  {
    if s.entry != b {
      var inner := if b in Entries(s.left) then s.left else s.right;
      PlugOrdered(comp, inner, b, u);
      if Plug(inner, b, u).Branch? { RootIsMinimum(comp, s, Plug(inner, b, u).entry); }
    }
  }

  lemma {:induction false} SubtreeOrdered<T>(comp: (T, T) -> int, s: Tree<T>, b: Entry<T>)
    requires Ordered(comp, s) && b in Entries(s)
    ensures Ordered(comp, SubtreeAt(s, b))
  {
    if s.entry != b {
      if b in Entries(s.left) { SubtreeOrdered(comp, s.left, b); } else { SubtreeOrdered(comp, s.right, b); }
    }
  }

  /** Removing an entry anywhere keeps the order. */
  lemma RemovedOrdered<T(!new)>(comp: (T, T) -> int, s: Tree<T>, b: Entry<T>)
    requires TotalPreorder(comp) && Distinct(s) && Ordered(comp, s) && b in Entries(s)
    ensures SubtreeAt(s, b).Branch? && Ordered(comp, Removed(comp, s, b))
  {
    SubtreeShape(s, b);
    SubtreeOrdered(comp, s, b);
    var v := SubtreeAt(s, b);
    MergedOrdered(comp, v.left, v.right);
    MergedRoot(comp, v.left, v.right);
    RootIn(v.left);
    RootIn(v.right);
    PlugOrdered(comp, s, b, Merged(comp, v.left, v.right));
  }

  /** The root is a minimum of whatever the heap holds: what a priority queue is for. */
  lemma RootIsLeast<T(!new)>(comp: (T, T) -> int, s: Tree<T>)
    requires TotalPreorder(comp) && Ordered(comp, s) && s.Branch?
    ensures forall e :: e in Entries(s) ==> AtMost(comp, s.entry.data, e.data)
  {
    forall e | e in Entries(s) ensures AtMost(comp, s.entry.data, e.data) {
      RootIsMinimum(comp, s, e);
    }
  }

  // ---- amortised cost ----

  /** floor(log2(n + 1)) */
  function Log(n: nat): nat
  {
    if n == 0 then 0 else 1 + Log((n - 1) / 2)
  }

  /** Which this is: 2^L <= n + 1 < 2^(L + 1). */
  lemma {:induction false} LogIsLog(n: nat)
    ensures Pow2(Log(n)) <= n + 1 < Pow2(Log(n) + 1)
  {
    if n > 0 { LogIsLog((n - 1) / 2); }
  }

  lemma {:induction false} LogMonotone(m: nat, n: nat)
    requires m <= n
    ensures Log(m) <= Log(n)
  {
    if m > 0 { LogMonotone((m - 1) / 2, (n - 1) / 2); }
  }

  /** The potential: how many entries have a right subtree larger than the left. */
  ghost function Potential<T>(s: Tree<T>): nat
  {
    match s
    case Nil => 0
    case Branch(_, l, r) => Potential(l) + Potential(r) + (if Size(r) > Size(l) then 1 else 0)
  }

  /** The other entries, along the right spine. */
  ghost function LightSpine<T>(s: Tree<T>): nat
  {
    match s
    case Nil => 0
    case Branch(_, l, r) => LightSpine(r) + (if Size(r) > Size(l) then 0 else 1)
  }

  lemma {:induction false} LightSpineIsShort<T>(s: Tree<T>)
    ensures LightSpine(s) <= Log(Size(s))
  {
    if s.Branch? {
      LightSpineIsShort(s.right);
      if Size(s.right) > Size(s.left) {
        LogMonotone(Size(s.right), Size(s));
      } else {
        LogMonotone(Size(s.right), (Size(s) - 1) / 2);
      }
    }
  }

  lemma {:induction false} MergedSize<T>(comp: (T, T) -> int, s: Tree<T>, t: Tree<T>)
    ensures Size(Merged(comp, s, t)) == Size(s) + Size(t)
    decreases Size(s) + Size(t)
  {
    if s.Branch? && t.Branch? {
      if comp(s.entry.data, t.entry.data) == -1 { MergedSize(comp, s.right, t); } else { MergedSize(comp, s, t.right); }
    }
  }

  lemma {:induction false} SpinePays<T>(comp: (T, T) -> int, s: Tree<T>, t: Tree<T>)
    ensures Comparisons(comp, s, t) + Potential(Merged(comp, s, t))
         <= Potential(s) + Potential(t) + 2 * (LightSpine(s) + LightSpine(t))
    decreases Size(s) + Size(t)
  {
    if s.Branch? && t.Branch? {
      if comp(s.entry.data, t.entry.data) == -1 {
        SpinePays(comp, s.right, t);
        MergedSize(comp, s.right, t);
      } else {
        SpinePays(comp, s, t.right);
        MergedSize(comp, s, t.right);
      }
    }
  }

  /** Merging has logarithmic amortised cost. */
  lemma MergeIsLogarithmic<T>(comp: (T, T) -> int, s: Tree<T>, t: Tree<T>)
    ensures Comparisons(comp, s, t) + Potential(Merged(comp, s, t))
         <= Potential(s) + Potential(t) + 2 * (Log(Size(s)) + Log(Size(t)))
  {
    SpinePays(comp, s, t);
    LightSpineIsShort(s);
    LightSpineIsShort(t);
  }

  datatype Op<T> = Push(entry: Entry<T>) | PopRoot

  ghost function After<T>(comp: (T, T) -> int, ops: seq<Op<T>>): Tree<T>
  {
    if ops == [] then Nil
    else
      var s := After(comp, ops[..|ops| - 1]);
      match ops[|ops| - 1]
      case Push(b) => Inserted(comp, s, b)
      case PopRoot => if s.Nil? then Nil else Merged(comp, s.left, s.right)
  }

  ghost function Cost<T>(comp: (T, T) -> int, ops: seq<Op<T>>): nat
  {
    if ops == [] then 0
    else
      var s := After(comp, ops[..|ops| - 1]);
      Cost(comp, ops[..|ops| - 1])
      + match ops[|ops| - 1]
        case Push(b) => Comparisons(comp, s, Branch(b, Nil, Nil))
        case PopRoot => if s.Nil? then 0 else Comparisons(comp, s.left, s.right)
  }

  /** PopRoot is the removal of the root. */
  lemma PopRootRemoves<T>(comp: (T, T) -> int, s: Tree<T>)
    requires s.Branch?
    ensures s.entry in Entries(s) && SubtreeAt(s, s.entry) == s && Removed(comp, s, s.entry) == Merged(comp, s.left, s.right)
  {
  }

  /** One operation on a heap of at most m entries. */
  lemma OneMore<T>(comp: (T, T) -> int, ops: seq<Op<T>>, m: nat)
    requires ops != [] && m >= 1 && Size(After(comp, ops[..|ops| - 1])) <= m
    ensures Size(After(comp, ops)) <= Size(After(comp, ops[..|ops| - 1])) + 1
    ensures Cost(comp, ops) + Potential(After(comp, ops))
         <= Cost(comp, ops[..|ops| - 1]) + Potential(After(comp, ops[..|ops| - 1])) + 4 * Log(m)
  {
    var s := After(comp, ops[..|ops| - 1]);
    match ops[|ops| - 1]
    case Push(b) =>
      var one := Branch(b, Nil, Nil);
      MergeIsLogarithmic(comp, s, one);
      MergedSize(comp, s, one);
      LogMonotone(Size(s), m);
      LogMonotone(1, m);
      assert Log(1) == 1 && Potential(one) == 0 && Size(one) == 1;
    case PopRoot =>
      if s.Branch? {
        MergeIsLogarithmic(comp, s.left, s.right);
        MergedSize(comp, s.left, s.right);
        LogMonotone(Size(s.left), m);
        LogMonotone(Size(s.right), m);
      }
  }

  lemma {:induction false} CostSoFar<T>(comp: (T, T) -> int, ops: seq<Op<T>>, m: nat)
    requires |ops| <= m && m >= 1
    ensures Size(After(comp, ops)) <= |ops|
    ensures Cost(comp, ops) + Potential(After(comp, ops)) <= Times(4 * Log(m), |ops|)
  {
    if ops != [] {
      hide Log;
      CostSoFar(comp, ops[..|ops| - 1], m);
      hide After, Cost;
      OneMore(comp, ops, m);
    } else {
      assert After(comp, ops) == Nil && Cost(comp, ops) == 0;
    }
  }

  /** a * n, by repeated addition. */
  function Times(a: nat, n: nat): (r: nat)
    ensures r == a * n
  {
    if n == 0 then 0 else Times(a, n - 1) + a
  }

  /** Any m inserts and root removals, from an empty heap, compare at most 4 m log2(m + 1) times. */
  lemma OperationsAreLogarithmic<T>(comp: (T, T) -> int, ops: seq<Op<T>>)
    ensures Cost(comp, ops) <= 4 * |ops| * Log(|ops|)
  {
    hide Log, After, Cost;
    if ops != [] {
      CostSoFar(comp, ops, |ops|);
      Commute(Log(|ops|), |ops|);
    } else {
      NoCost(comp, ops);
    }
  }

  lemma NoCost<T>(comp: (T, T) -> int, ops: seq<Op<T>>)
    requires ops == []
    ensures Cost(comp, ops) == 0
  {
  }

  lemma Commute(a: nat, n: nat)
    ensures Times(4 * a, n) == 4 * n * a
  {
  }
}
