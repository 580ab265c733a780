/** The skew heap of lab6: entries with parent, left and right links, changed in place.

    A ghost tree over the entries says what the links mean.  The methods are proved to turn the
    links of one tree into those of another, which functions on trees give; the laws of a
    mergeable heap are then laws of those functions. */
module SkewHeap {

  /** struct skew_heap_entry; `data` stands for the structure it is embedded in. */
  class Entry<T> {
    var parent: Entry?<T>
    var left: Entry?<T>
    var right: Entry?<T>
    const data: T

    constructor (data: T)
      ensures this.data == data
    {
      this.data := data;
    }

    /** skew_heap_init */
    method Init()
      modifies this
      ensures left == null && right == null && parent == null
    {
      left, right, parent := null, null, null;
    }
  }

  datatype Tree<T> = Nil | Branch(entry: Entry<T>, left: Tree<T>, right: Tree<T>)

  ghost function Root<T>(s: Tree<T>): Entry?<T>
  {
    if s.Nil? then null else s.entry
  }

  ghost function Entries<T>(s: Tree<T>): set<Entry<T>>
  {
    match s
    case Nil => {}
    case Branch(e, l, r) => {e} + Entries(l) + Entries(r)
  }

  ghost function Size<T>(s: Tree<T>): nat
  {
    match s
    case Nil => 0
    case Branch(_, l, r) => 1 + Size(l) + Size(r)
  }

  /** No entry is in two places of the tree. */
  ghost predicate Distinct<T>(s: Tree<T>)
  {
    match s
    case Nil => true
    case Branch(e, l, r) => e !in Entries(l) && e !in Entries(r) && Entries(l) !! Entries(r) && Distinct(l) && Distinct(r)
  }

  /** The links below the root are those of `s`, parent links included. */
  ghost predicate Below<T>(s: Tree<T>)
    reads Entries(s)
  {
    match s
    case Nil => true
    case Branch(e, l, r) => e.left == Root(l) && e.right == Root(r) && Linked(l, e) && Linked(r, e)
  }

  /** The links are those of `s`, hanging from `up`. */
  ghost predicate Linked<T>(s: Tree<T>, up: Entry?<T>)
    reads Entries(s)
  {
    match s
    case Nil => true
    case Branch(e, l, r) => e.parent == up && e.left == Root(l) && e.right == Root(r) && Linked(l, e) && Linked(r, e)
  }

  /** A heap as its users hold it: well-formed links from a root without parent. */
  ghost predicate Heap<T>(s: Tree<T>)
    reads Entries(s)
  {
    Distinct(s) && Linked(s, null)
  }

  // ---- merge ----

  ghost function Merged<T>(comp: (T, T) -> int, s: Tree<T>, t: Tree<T>): Tree<T>
    decreases Size(s) + Size(t)
  {
    if s.Nil? then t
    else if t.Nil? then s
    else if comp(s.entry.data, t.entry.data) == -1 then Branch(s.entry, Merged(comp, s.right, t), s.left)
    else Branch(t.entry, Merged(comp, s, t.right), t.left)
  }

  /** How often merging compares. */
  ghost function Comparisons<T>(comp: (T, T) -> int, s: Tree<T>, t: Tree<T>): nat
    decreases Size(s) + Size(t)
  {
    if s.Nil? || t.Nil? then 0
    else if comp(s.entry.data, t.entry.data) == -1 then 1 + Comparisons(comp, s.right, t)
    else 1 + Comparisons(comp, s, t.right)
  }

  /** Merging keeps exactly the entries of both heaps. */
  lemma {:induction false} MergedEntries<T>(comp: (T, T) -> int, s: Tree<T>, t: Tree<T>)
    requires Distinct(s) && Distinct(t) && Entries(s) !! Entries(t)
    ensures Entries(Merged(comp, s, t)) == Entries(s) + Entries(t)
    ensures Size(Merged(comp, s, t)) == Size(s) + Size(t)
    ensures Distinct(Merged(comp, s, t))
    decreases Size(s) + Size(t)
  {
    if s.Branch? && t.Branch? {
      if comp(s.entry.data, t.entry.data) == -1 {
        MergedEntries(comp, s.right, t);
      } else {
        MergedEntries(comp, s, t.right);
      }
    }
  }

  /** skew_heap_merge; `compared` counts the calls of the comparator. */
  method Merge<T>(a: Entry?<T>, b: Entry?<T>, comp: (T, T) -> int, ghost s: Tree<T>, ghost t: Tree<T>)
    returns (m: Entry?<T>, ghost compared: nat)
    requires a == Root(s) && b == Root(t) && Below(s) && Below(t)
    requires Distinct(s) && Distinct(t) && Entries(s) !! Entries(t)
    modifies Entries(s) + Entries(t)
    ensures m == Root(Merged(comp, s, t)) && Below(Merged(comp, s, t))
    ensures m != null ==> m.parent == old(m.parent)
    ensures compared == Comparisons(comp, s, t)
    decreases Size(s) + Size(t)
  {
    hide Distinct, Entries;
    if a == null {
      return b, 0;
    } else if b == null {
      return a, 0;
    }
    if comp(a.data, b.data) == -1 {
      Apart(comp, s, t);
      Allocated(s.left);
      LinkedBelow(s.right, a);
      var r := a.left;
      var l;
      l, compared := Merge(a.right, b, comp, s.right, t);
      Hang(a, l, r, Merged(comp, s.right, t), s.left);
      return a, compared + 1;
    } else {
      ApartRight(comp, s, t);
      Allocated(t.left);
      LinkedBelow(t.right, b);
      var r := b.left;
      var l;
      l, compared := Merge(a, b.right, comp, s, t.right);
      Hang(b, l, r, Merged(comp, s, t.right), t.left);
      return b, compared + 1;
    }
  }

  /** What recursion on the right subtree of `s` touches, and what it leaves alone. */
  lemma Apart<T>(comp: (T, T) -> int, s: Tree<T>, t: Tree<T>)
    requires Distinct(s) && Distinct(t) && Entries(s) !! Entries(t) && s.Branch?
    ensures Distinct(s.right) && Entries(s.right) !! Entries(t)
    ensures Entries(s.right) + Entries(t) <= Entries(s) + Entries(t)
    ensures Entries(s.left) !! Entries(s.right) + Entries(t) && s.entry !in Entries(s.right) + Entries(t)
    ensures s.entry in Entries(s) && Distinct(Branch(s.entry, Merged(comp, s.right, t), s.left))
    ensures var m := Merged(comp, s.right, t); m.Branch? ==> m.entry in Entries(s.right) + Entries(t)
  {
    MergedEntries(comp, s.right, t);
  }

  lemma ApartRight<T>(comp: (T, T) -> int, s: Tree<T>, t: Tree<T>)
    requires Distinct(s) && Distinct(t) && Entries(s) !! Entries(t) && t.Branch?
    ensures Distinct(t.right) && Entries(s) !! Entries(t.right)
    ensures Entries(s) + Entries(t.right) <= Entries(s) + Entries(t)
    ensures Entries(t.left) !! Entries(s) + Entries(t.right) && t.entry !in Entries(s) + Entries(t.right)
    ensures t.entry in Entries(t) && Distinct(Branch(t.entry, Merged(comp, s, t.right), t.left))
    ensures var m := Merged(comp, s, t.right); m.Branch? ==> m.entry in Entries(s) + Entries(t.right)
  {
    MergedEntries(comp, s, t.right);
  }

  /** The merged subtree goes to the left, with its parent link, and the old left subtree to the right. */
  method Hang<T>(e: Entry<T>, l: Entry?<T>, r: Entry?<T>, ghost s: Tree<T>, ghost t: Tree<T>)
    requires l == Root(s) && r == Root(t) && Below(s) && Linked(t, e) && Distinct(Branch(e, s, t))
    modifies e`left, e`right, (if l == null then {} else {l})`parent
    ensures Below(Branch(e, s, t))
  {
    e.left := l;
    e.right := r;
    if l != null { l.parent := e; }
    BelowLinked(s, e);
  }

  lemma {:induction false} Allocated<T>(s: Tree<T>)
    ensures forall e :: e in Entries(s) ==> allocated(e)
  {
    if s.Branch? {
      Allocated(s.left);
      Allocated(s.right);
    }
  }

  lemma LinkedBelow<T>(s: Tree<T>, up: Entry?<T>)
    requires Linked(s, up)
    ensures Below(s)
  {
  }

  lemma BelowLinked<T>(s: Tree<T>, up: Entry?<T>)
    requires Below(s) && (s.Branch? ==> s.entry.parent == up)
    ensures Linked(s, up)
  {
  }

  // ---- insert ----

  ghost function Inserted<T>(comp: (T, T) -> int, s: Tree<T>, b: Entry<T>): Tree<T>
  {
    Merged(comp, s, Branch(b, Nil, Nil))
  }

  lemma InsertedEntries<T>(comp: (T, T) -> int, s: Tree<T>, b: Entry<T>)
    requires Distinct(s) && b !in Entries(s)
    ensures Entries(Inserted(comp, s, b)) == Entries(s) + {b} && Size(Inserted(comp, s, b)) == Size(s) + 1
    ensures Distinct(Inserted(comp, s, b))
  {
    var one := Branch(b, Nil, Nil);
    assert Entries(one) == {b} && Size(one) == 1 && Distinct(one);
    MergedEntries(comp, s, one);
  }

  /** skew_heap_insert */
  method Insert<T>(a: Entry?<T>, b: Entry<T>, comp: (T, T) -> int, ghost s: Tree<T>) returns (m: Entry?<T>, ghost compared: nat)
    requires a == Root(s) && Heap(s) && b !in Entries(s)
    modifies Entries(s) + {b}
    ensures m == Root(Inserted(comp, s, b)) && Heap(Inserted(comp, s, b))
    ensures compared == Comparisons(comp, s, Branch(b, Nil, Nil))
  {
    ghost var one := Branch(b, Nil, Nil);
    assert Entries(one) == {b} && Distinct(one);
    Allocated(s);
    b.Init();
    assert Linked(s, null);
    LinkedBelow(s, null);
    InsertedEntries(comp, s, b);
    m, compared := Merge(a, b, comp, s, one);
    RootIn(Inserted(comp, s, b));
    if s.Branch? { RootIn(s); }
    assert m != null ==> m.parent == null by { MergedRoot(comp, s, one); }
    BelowLinked(Inserted(comp, s, b), null);
  }

  lemma RootIn<T>(s: Tree<T>)
    ensures s.Branch? ==> s.entry in Entries(s)
  {
  }

  lemma MergedRoot<T>(comp: (T, T) -> int, s: Tree<T>, t: Tree<T>)
    ensures Root(Merged(comp, s, t)) == Root(s) || Root(Merged(comp, s, t)) == Root(t)
  {
  }

  // ---- remove ----

  /** The subtree whose root is `b`. */
  ghost function SubtreeAt<T>(s: Tree<T>, b: Entry<T>): Tree<T>
    requires b in Entries(s)
  {
    if s.entry == b then s else if b in Entries(s.left) then SubtreeAt(s.left, b) else SubtreeAt(s.right, b)
  }

  /** The tree with `u` in the place of the subtree at `b`. */
  ghost function Plug<T>(s: Tree<T>, b: Entry<T>, u: Tree<T>): Tree<T>
    requires b in Entries(s)
  {
    if s.entry == b then u
    else if b in Entries(s.left) then Branch(s.entry, Plug(s.left, b, u), s.right)
    else Branch(s.entry, s.left, Plug(s.right, b, u))
  }

  ghost function Removed<T>(comp: (T, T) -> int, s: Tree<T>, b: Entry<T>): Tree<T>
    requires b in Entries(s) && SubtreeAt(s, b).Branch?
  {
    Plug(s, b, Merged(comp, SubtreeAt(s, b).left, SubtreeAt(s, b).right))
  }

  /** The subtree at `b` as the links show it before the removal. */
  lemma {:induction false} SubtreeLinks<T>(s: Tree<T>, b: Entry<T>, up: Entry?<T>)
    requires Distinct(s) && Linked(s, up) && b in Entries(s) && up !in Entries(s)
    ensures var u := SubtreeAt(s, b);
      && u.Branch? && u.entry == b && Distinct(u) && Entries(u) <= Entries(s)
      && Linked(u, b.parent) && b.parent !in Entries(u)
      && (if s.entry == b then b.parent == up
          else b.parent != null && b.parent in Entries(s) && (b.parent.left == b || b.parent.right == b))
      && (forall e :: e in Entries(s) && (e.left == b || e.right == b) ==> e == b.parent && e.left != e.right)
  {
    assert forall e :: e in Entries(s) && e != s.entry ==> e in Entries(s.left) || e in Entries(s.right);
    LinksInside(s.left, s.entry);
    LinksInside(s.right, s.entry);
    if s.entry == b {
    } else if b in Entries(s.left) {
      SubtreeLinks(s.left, b, s.entry);
    } else {
      SubtreeLinks(s.right, b, s.entry);
    }
  }

  /** Child links stay inside the tree and never lead to its root. */
  lemma {:induction false} LinksInside<T>(s: Tree<T>, up: Entry?<T>)
    requires Distinct(s) && Linked(s, up)
    ensures forall e :: e in Entries(s) ==> (e.left == null || (e.left in Entries(s) && e.left != s.entry))
    ensures forall e :: e in Entries(s) ==> (e.right == null || (e.right in Entries(s) && e.right != s.entry))
  {
    if s.Branch? {
      LinksInside(s.left, s.entry);
      LinksInside(s.right, s.entry);
      RootIn(s.left);
      RootIn(s.right);
    }
  }

  /** The child link of `e` after the entry `b` has been replaced by `m`. */
  function Redirected<T>(child: Entry?<T>, b: Entry<T>, m: Entry?<T>): Entry?<T>
  {
    if child == b then m else child
  }

  datatype Links<T> = Links(parent: Entry?<T>, left: Entry?<T>, right: Entry?<T>)

  /** The links of the entries, to be compared with later ones. */
  ghost function Snapshot<T>(es: set<Entry<T>>): map<Entry<T>, Links<T>>
    reads es
  {
    map e | e in es :: Links(e.parent, e.left, e.right)
  }

  /** The links were those of `s`, hanging from `up`. */
  ghost predicate WasLinked<T>(s: Tree<T>, up: Entry?<T>, was: map<Entry<T>, Links<T>>)
  {
    match s
    case Nil => true
    case Branch(e, l, r) => e in was && was[e] == Links(up, Root(l), Root(r)) && WasLinked(l, e, was) && WasLinked(r, e, was)
  }

  lemma {:induction false} SnapshotLinked<T>(s: Tree<T>, up: Entry?<T>, es: set<Entry<T>>)
    requires Linked(s, up) && Entries(s) <= es
    ensures WasLinked(s, up, Snapshot(es))
  {
    if s.Branch? {
      SnapshotLinked(s.left, s.entry, es);
      SnapshotLinked(s.right, s.entry, es);
    }
  }

  /** Entry `e` has the links it had, except that a link to `b` now leads to `m`. */
  ghost predicate Keeps<T>(e: Entry<T>, was: map<Entry<T>, Links<T>>, b: Entry<T>, m: Entry?<T>)
    reads e
  {
    && e in was && e.parent == was[e].parent
    && e.left == Redirected(was[e].left, b, m) && e.right == Redirected(was[e].right, b, m)
  }

  /** Redirecting the link to `b` puts `u` in the place of the subtree at `b`. */
  lemma {:induction false} PlugLinked<T>(s: Tree<T>, b: Entry<T>, u: Tree<T>, up: Entry?<T>, was: map<Entry<T>, Links<T>>)
    requires Distinct(s) && WasLinked(s, up, was) && b in Entries(s) && b in was
    requires Linked(u, was[b].parent)
    requires forall e :: e in Entries(s) && e !in Entries(SubtreeAt(s, b)) ==> Keeps(e, was, b, Root(u))
    ensures Linked(Plug(s, b, u), up)
  {
    if s.entry != b {
      var inner := if b in Entries(s.left) then s.left else s.right;
      var outer := if b in Entries(s.left) then s.right else s.left;
      SubtreeShape(inner, b);
      RootIn(outer);
      PlugLinked(inner, b, u, s.entry, was);
      KeptLinked(outer, b, Root(u), s.entry, was);
    }
  }

  /** A tree without `b` does not notice. */
  lemma {:induction false} KeptLinked<T>(s: Tree<T>, b: Entry<T>, m: Entry?<T>, up: Entry?<T>, was: map<Entry<T>, Links<T>>)
    requires WasLinked(s, up, was) && b !in Entries(s)
    requires forall e :: e in Entries(s) ==> Keeps(e, was, b, m)
    ensures Linked(s, up)
  {
    if s.Branch? {
      RootIn(s.left);
      RootIn(s.right);
      KeptLinked(s.left, b, m, s.entry, was);
      KeptLinked(s.right, b, m, s.entry, was);
    }
  }

  lemma {:induction false} PlugEntries<T>(s: Tree<T>, b: Entry<T>, u: Tree<T>)
    requires Distinct(s) && b in Entries(s) && Distinct(u)
    requires var v := SubtreeAt(s, b); Entries(u) == Entries(v) - {b} && v.Branch? && v.entry == b && Size(u) + 1 == Size(v)
    ensures Entries(Plug(s, b, u)) == Entries(s) - {b} && Distinct(Plug(s, b, u)) && Size(Plug(s, b, u)) + 1 == Size(s)
  {
    if s.entry != b {
      if b in Entries(s.left) { PlugEntries(s.left, b, u); } else { PlugEntries(s.right, b, u); }
    }
  }

  lemma {:induction false} SubtreeShape<T>(s: Tree<T>, b: Entry<T>)
    requires Distinct(s) && b in Entries(s)
    ensures var v := SubtreeAt(s, b); v.Branch? && v.entry == b && Distinct(v) && Entries(v) <= Entries(s)
  {
    if s.entry != b {
      if b in Entries(s.left) { SubtreeShape(s.left, b); } else { SubtreeShape(s.right, b); }
    }
  }

  /** Removal takes away exactly `b`. */
  lemma RemovedEntries<T>(comp: (T, T) -> int, s: Tree<T>, b: Entry<T>)
    requires Distinct(s) && b in Entries(s)
    ensures SubtreeAt(s, b).Branch?
    ensures Entries(Removed(comp, s, b)) == Entries(s) - {b} && Size(Removed(comp, s, b)) == Size(s) - 1
    ensures Distinct(Removed(comp, s, b))
  {
    SubtreeShape(s, b);
    var v := SubtreeAt(s, b);
    MergedEntries(comp, v.left, v.right);
    PlugEntries(s, b, Merged(comp, v.left, v.right));
  }

  /** skew_heap_remove: `b` may be anywhere in the heap. */
  method Remove<T>(a: Entry?<T>, b: Entry<T>, comp: (T, T) -> int, ghost s: Tree<T>) returns (m: Entry?<T>, ghost compared: nat)
    requires a == Root(s) && Heap(s) && b in Entries(s)
    modifies Entries(s)
    ensures SubtreeAt(s, b).Branch? && m == Root(Removed(comp, s, b)) && Heap(Removed(comp, s, b))
    ensures compared == Comparisons(comp, SubtreeAt(s, b).left, SubtreeAt(s, b).right)
  {
    hide Distinct, Entries, Linked, Below, Plug, SubtreeAt, Merged;
    Allocated(s);
    SubtreeLinks(s, b, null);
    RemovedEntries(comp, s, b);
    ghost var v := SubtreeAt(s, b);
    ghost var u := Merged(comp, v.left, v.right);
    ghost var was := Snapshot(Entries(s));
    SnapshotLinked(s, null, Entries(s));
    Children(comp, v, b.parent);
    var p := b.parent;
    var rep;
    rep, compared := Merge(b.left, b.right, comp, v.left, v.right);
    SetParent(rep, p, u);
    if p != null {
      Redirect(p, b, rep, Entries(s) - Entries(v), was);
      m := a;
    } else {
      m := rep;
    }
    assert forall e :: e in Entries(s) && e !in Entries(v) ==> Keeps(e, was, b, rep);
    PlugLinked(s, b, u, null, was);
    PlugRoot(s, b, u);
  }

  /** The parent's link to `b` now leads to `rep`. */
  method Redirect<T>(p: Entry<T>, b: Entry<T>, rep: Entry?<T>, ghost es: set<Entry<T>>, ghost was: map<Entry<T>, Links<T>>)
    requires p in es && (p.left == b || p.right == b)
    requires forall e :: e in es ==> e in was && was[e] == Links(e.parent, e.left, e.right)
    requires forall e :: e in es && (e.left == b || e.right == b) ==> e == p && e.left != e.right
    modifies p`left, p`right
    ensures forall e :: e in es ==> Keeps(e, was, b, rep)
  {
    if p.left == b {
      p.left := rep;
    } else {
      p.right := rep;
    }
  }

  method SetParent<T>(rep: Entry?<T>, p: Entry?<T>, ghost u: Tree<T>)
    requires rep == Root(u) && Below(u) && Distinct(u)
    modifies (if rep == null then {} else {rep})`parent
    ensures Linked(u, p)
  {
    if rep != null { rep.parent := p; }
    BelowLinked(u, p);
  }

  /** The subtrees of the entry to be removed, and what their merge consists of. */
  lemma Children<T>(comp: (T, T) -> int, v: Tree<T>, up: Entry?<T>)
    requires v.Branch? && Distinct(v) && Linked(v, up)
    ensures v.entry.left == Root(v.left) && v.entry.right == Root(v.right) && Below(v.left) && Below(v.right)
    ensures Distinct(v.left) && Distinct(v.right) && Entries(v.left) !! Entries(v.right)
    ensures Entries(v.left) + Entries(v.right) == Entries(v) - {v.entry} && v.entry in Entries(v)
    ensures var u := Merged(comp, v.left, v.right);
      Distinct(u) && Entries(u) == Entries(v) - {v.entry} && (u.Branch? ==> u.entry in Entries(u))
  {
    LinkedBelow(v.left, v.entry);
    LinkedBelow(v.right, v.entry);
    MergedEntries(comp, v.left, v.right);
  }

  lemma PlugRoot<T>(s: Tree<T>, b: Entry<T>, u: Tree<T>)
    requires b in Entries(s)
    ensures Root(Plug(s, b, u)) == if s.entry == b then Root(u) else Root(s)
  {
  }
}
