// The red-black tree of kern/libs/rb_tree.c: nodes in memory with parent links, a nil node and a
// root sentinel, seen as the tree they form and as a path into that tree.
module RbTrees {
  import opened Options

  type Ptr = int

  // struct rb_node; memory maps addresses to these structs
  datatype RbNode = RbNode(red: bool, parent: Ptr, left: Ptr, right: Ptr) {
    function Kid(d: bool): Ptr { if d then left else right }
    function WithKid(d: bool, v: Ptr): RbNode { if d then this.(left := v) else this.(right := v) }
  }

  type Mem = map<Ptr, RbNode>

  datatype Tree = Leaf | Node(l: Tree, n: Ptr, red: bool, r: Tree)

  // Path from the position of a subtree up to the root sentinel; d says that the
  // position is under the left link of n, sib is the subtree under the other link.
  datatype Path = Top | Step(d: bool, n: Ptr, red: bool, sib: Tree, up: Path)

  ghost function Nodes(t: Tree): set<Ptr> {
    match t
    case Leaf => {}
    case Node(l, n, _, r) => Nodes(l) + {n} + Nodes(r)
  }

  ghost function PathNodes(p: Path): set<Ptr> {
    match p
    case Top => {}
    case Step(_, n, _, s, up) => PathNodes(up) + {n} + Nodes(s)
  }

  ghost predicate Distinct(t: Tree) {
    match t
    case Leaf => true
    case Node(l, n, _, r) =>
      Distinct(l) && Distinct(r) && n !in Nodes(l) && n !in Nodes(r) && Nodes(l) !! Nodes(r)
  }

  ghost predicate PathDistinct(p: Path) {
    match p
    case Top => true
    case Step(_, n, _, s, up) =>
      && Distinct(s) && PathDistinct(up)
      && n !in Nodes(s) && n !in PathNodes(up) && Nodes(s) !! PathNodes(up)
  }

  function Mk(d: bool, a: Tree, n: Ptr, red: bool, b: Tree): Tree {
    if d then Node(a, n, red, b) else Node(b, n, red, a)
  }

  function Sub(t: Tree, d: bool): Tree
    requires t.Node?
  {
    if d then t.l else t.r
  }

  function Rotated(t: Tree, d: bool): Tree
    requires t.Node? && Sub(t, !d).Node?
  {
    var u := Sub(t, !d);
    Mk(d, Mk(d, Sub(t, d), t.n, t.red, Sub(u, d)), u.n, u.red, Sub(u, !d))
  }

  lemma KidFacts(t: Tree, d: bool)
    requires t.Node? && Distinct(t)
    ensures Nodes(t) == Nodes(Sub(t, d)) + {t.n} + Nodes(Sub(t, !d))
    ensures Distinct(Sub(t, d)) && Distinct(Sub(t, !d))
    ensures t.n !in Nodes(Sub(t, d)) && t.n !in Nodes(Sub(t, !d)) && Nodes(Sub(t, d)) !! Nodes(Sub(t, !d))
  {
  }

  // ---- order, colours, and trees split at a position ----

  ghost function Inorder(t: Tree): seq<Ptr> {
    match t
    case Leaf => []
    case Node(l, n, _, r) => Inorder(l) + [n] + Inorder(r)
  }

  // Nodes that come before (after) the position at the end of a path.
  ghost function Before(p: Path): seq<Ptr> {
    match p
    case Top => []
    case Step(d, n, _, s, up) => if d then Before(up) else Before(up) + Inorder(s) + [n]
  }

  ghost function After(p: Path): seq<Ptr> {
    match p
    case Top => []
    case Step(d, n, _, s, up) => if d then [n] + Inorder(s) + After(up) else After(up)
  }

  ghost function Plug(p: Path, t: Tree): Tree {
    match p
    case Top => t
    case Step(d, n, c, s, up) => Plug(up, Mk(d, t, n, c, s))
  }

  // The value check_tree returns.
  ghost function BlackHeight(t: Tree): nat {
    match t
    case Leaf => 1
    case Node(l, _, c, _) => BlackHeight(l) + (if c then 0 else 1)
  }

  lemma BlackHeightPositive(t: Tree)
    ensures BlackHeight(t) >= 1
  {
  }

  ghost predicate Balanced(t: Tree) {
    t.Node? ==> Balanced(t.l) && Balanced(t.r) && BlackHeight(t.l) == BlackHeight(t.r)
  }

  ghost predicate RedRoot(t: Tree) {
    t.Node? && t.red
  }

  ghost predicate NoRedRed(t: Tree) {
    t.Node? ==> NoRedRed(t.l) && NoRedRed(t.r) && (t.red ==> !RedRoot(t.l) && !RedRoot(t.r))
  }

  ghost predicate RedBlack(t: Tree) {
    Balanced(t) && NoRedRed(t) && !RedRoot(t)
  }

  // Filling the position with a balanced tree of black height h gives a balanced tree.
  ghost predicate PathBalanced(p: Path, h: int) {
    p.Step? ==> Balanced(p.sib) && BlackHeight(p.sib) == h && PathBalanced(p.up, h + if p.red then 0 else 1)
  }

  // No red node on the path has a red child when the position itself has colour c;
  // the topmost node of the path is black.
  ghost predicate PathNoRedRed(p: Path, c: bool) {
    p.Step? ==>
      && NoRedRed(p.sib) && (p.red ==> !c && !RedRoot(p.sib))
      && PathNoRedRed(p.up, p.red) && (p.up.Top? ==> !p.red)
  }

  lemma PlugColours(p: Path, t: Tree)
    requires Balanced(t) && PathBalanced(p, BlackHeight(t))
    requires NoRedRed(t) && PathNoRedRed(p, RedRoot(t))
    ensures Balanced(Plug(p, t)) && NoRedRed(Plug(p, t))
    ensures p.Step? ==> !RedRoot(Plug(p, t))
  {
    if p.Step? { PlugColours(p.up, Mk(p.d, t, p.n, p.red, p.sib)); }
  }

  lemma {:induction false} PlugInorder(p: Path, t: Tree)
    ensures Inorder(Plug(p, t)) == Before(p) + Inorder(t) + After(p)
  {
    if p.Step? {
      LineUp(p, t, p.red);
      PlugInorder(p.up, Mk(p.d, t, p.n, p.red, p.sib));
      hide Inorder, Before, After, Mk;
    }
  }

  lemma PlugDistinct(p: Path, t: Tree)
    requires Distinct(t) && PathDistinct(p) && Nodes(t) !! PathNodes(p)
    ensures Distinct(Plug(p, t)) && Nodes(Plug(p, t)) == Nodes(t) + PathNodes(p)
  {
    if p.Step? {
      PlugDistinct(p.up, Mk(p.d, t, p.n, p.red, p.sib));
    }
  }

  lemma PlugAll(p: Path, t: Tree)
    ensures Nodes(Plug(p, t)) == Nodes(t) + PathNodes(p)
    ensures t.Node? || p.Step? ==> Plug(p, t).Node?
  {
    if p.Step? { PlugAll(p.up, Mk(p.d, t, p.n, p.red, p.sib)); }
  }

  lemma RotatedFacts(t: Tree, d: bool)
    requires t.Node? && Sub(t, !d).Node?
    ensures Inorder(Rotated(t, d)) == Inorder(t)
    ensures Nodes(Rotated(t, d)) == Nodes(t)
  {
    var u := Sub(t, !d);
    var a, b, c := Sub(t, d), Sub(u, d), Sub(u, !d);
    if d {
      assert t == Node(a, t.n, t.red, Node(b, u.n, u.red, c));
      assert Rotated(t, d) == Node(Node(a, t.n, t.red, b), u.n, u.red, c);
    } else {
      assert t == Node(Node(c, u.n, u.red, b), t.n, t.red, a);
      assert Rotated(t, d) == Node(c, u.n, u.red, Node(b, t.n, t.red, a));
    }
  }

  lemma RotatedDistinct(t: Tree, d: bool)
    requires t.Node? && Sub(t, !d).Node? && Distinct(t)
    ensures Distinct(Rotated(t, d))
  {
    var u := Sub(t, !d);
    KidFacts(t, d);
    KidFacts(u, d);
    var v := Mk(d, Sub(t, d), t.n, t.red, Sub(u, d));
    assert Nodes(v) == Nodes(Sub(t, d)) + {t.n} + Nodes(Sub(u, d)) && Distinct(v);
  }

  // ---- what the insertion fixup does to the split tree ----

  ghost function Line(p: Path, t: Tree): seq<Ptr> { Before(p) + Inorder(t) + After(p) }

  ghost function All(p: Path, t: Tree): set<Ptr> { Nodes(t) + PathNodes(p) }

  // The topmost node when x sits at the end of p.
  ghost function Head(p: Path, x: Ptr): Ptr {
    if p.Top? then x else Head(p.up, p.n)
  }

  ghost function Length(p: Path): nat {
    if p.Top? then 0 else 1 + Length(p.up)
  }

  lemma KidNodes(t: Tree, d: bool)
    requires t.Node?
    ensures t.n in Nodes(t) && Nodes(t) == Nodes(Sub(t, d)) + {t.n} + Nodes(Sub(t, !d))
    ensures forall e :: Sub(t, e).Node? ==> Sub(t, e).n in Nodes(t)
  {
  }

  lemma MkFacts(d: bool, a: Tree, n: Ptr, c: bool, b: Tree)
    ensures var t := Mk(d, a, n, c, b);
      && Nodes(t) == Nodes(a) + {n} + Nodes(b)
      && Inorder(t) == (if d then Inorder(a) + [n] + Inorder(b) else Inorder(b) + [n] + Inorder(a))
      && (BlackHeight(a) == BlackHeight(b) ==> BlackHeight(t) == BlackHeight(a) + if c then 0 else 1)
      && (Balanced(t) <==> Balanced(a) && Balanced(b) && BlackHeight(a) == BlackHeight(b))
      && (NoRedRed(t) <==> NoRedRed(a) && NoRedRed(b) && (c ==> !RedRoot(a) && !RedRoot(b)))
      && Sub(t, d) == a && Sub(t, !d) == b
  {
  }

  lemma LineUp(p: Path, t: Tree, c: bool)
    requires p.Step?
    ensures Line(p.up, Mk(p.d, t, p.n, c, p.sib)) == Line(p, t)
    ensures All(p.up, Mk(p.d, t, p.n, c, p.sib)) == All(p, t)
  {
    MkFacts(p.d, t, p.n, c, p.sib);
    hide Inorder, Nodes, Mk;
  }

  // Everything is in order except that the red root of t may have a red parent.
  ghost predicate RedDefect(p: Path, t: Tree) {
    && t.Node? && t.red && Balanced(t) && NoRedRed(t)
    && PathBalanced(p, BlackHeight(t)) && PathNoRedRed(p, false)
  }

  function RedLeaf(z: Ptr): Tree { Node(Leaf, z, true, Leaf) }

  // The tree below the grandparent, with the uncle u recoloured together with its sibling.
  ghost function Recoloured(p: Path, t: Tree): Tree
    requires p.Step? && p.up.Step? && p.up.sib.Node?
  {
    Mk(p.up.d, Mk(p.d, t, p.n, false, p.sib), p.up.n, true, p.up.sib.(red := false))
  }

  lemma RecolouredFacts(p: Path, t: Tree)
    requires RedDefect(p, t) && p.Step? && p.red && p.up.Step? && RedRoot(p.up.sib)
    ensures RedDefect(p.up.up, Recoloured(p, t))
    ensures Line(p.up.up, Recoloured(p, t)) == Line(p, t)
    ensures All(p.up.up, Recoloured(p, t)) == All(p, t)
  {
    var g, u := p.up, p.up.sib;
    var t1 := Mk(p.d, t, p.n, false, p.sib);
    assert PathNoRedRed(g, true) && PathNoRedRed(g.up, false);
    assert PathBalanced(g, BlackHeight(t)) && PathBalanced(g.up, BlackHeight(t) + 1);
    assert BlackHeight(t) == BlackHeight(p.sib) == BlackHeight(u) && Balanced(u) && NoRedRed(u) && Balanced(p.sib) &&
      NoRedRed(p.sib);
    PaintFacts(u, false);
    assert BlackHeight(u) == BlackHeight(u.l);
    hide Balanced, NoRedRed, BlackHeight, PathBalanced, PathNoRedRed, Inorder, Nodes, Mk;
    LineUp(p, t, false);
    LineUp(g, t1, true);
    MkFacts(p.d, t, p.n, false, p.sib);
    MkFacts(g.d, t1, g.n, true, u);
    MkFacts(g.d, t1, g.n, true, u.(red := false));
  }

  // The parent rotated below t, which hung on its inner side: now the parent is the red
  // node with a red parent, on the outer side.
  ghost function InnerPath(p: Path, t: Tree): Path
    requires p.Step? && p.up.Step? && t.Node?
  {
    Step(!p.d, t.n, true, Sub(t, p.d), p.up)
  }

  ghost function InnerTree(p: Path, t: Tree): Tree
    requires p.Step? && t.Node?
  {
    Mk(!p.d, p.sib, p.n, true, Sub(t, !p.d))
  }

  lemma InnerFacts(p: Path, t: Tree)
    requires RedDefect(p, t) && p.Step? && p.red && p.up.Step?
    ensures RedDefect(InnerPath(p, t), InnerTree(p, t))
    ensures Line(InnerPath(p, t), InnerTree(p, t)) == Line(p, t)
    ensures All(InnerPath(p, t), InnerTree(p, t)) == All(p, t)
  {
    var a, b := Sub(t, !p.d), Sub(t, p.d);
    assert t == Mk(p.d, b, t.n, true, a);
    MkFacts(p.d, b, t.n, true, a);
    MkFacts(!p.d, p.sib, p.n, true, a);
    InnerLine(p, t);
  }

  lemma InnerLine(p: Path, t: Tree)
    requires p.Step? && p.up.Step? && t.Node?
    ensures Line(InnerPath(p, t), InnerTree(p, t)) == Line(p, t)
    ensures All(InnerPath(p, t), InnerTree(p, t)) == All(p, t)
  {
    var t1 := Mk(p.d, t, p.n, true, p.sib);
    LineUp(p, t, true);
    RotatedFacts(t1, !p.d);
    LineUp(InnerPath(p, t), InnerTree(p, t), t.red);
  }

  // The parent, now black, rotated above the grandparent, now red.
  ghost function OuterPath(p: Path): Path
    requires p.Step? && p.up.Step?
  {
    Step(p.d, p.n, false, Mk(p.d, p.sib, p.up.n, true, p.up.sib), p.up.up)
  }

  lemma OuterFacts(p: Path, t: Tree)
    requires RedDefect(p, t) && p.Step? && p.red && p.up.Step? && p.up.d == p.d && !RedRoot(p.up.sib)
    ensures RedDefect(OuterPath(p), t)
    ensures Line(OuterPath(p), t) == Line(p, t)
    ensures All(OuterPath(p), t) == All(p, t)
  {
    MkFacts(p.d, p.sib, p.up.n, true, p.up.sib);
    OuterLine(p, t);
    assert PathNoRedRed(p.up, true) && PathNoRedRed(p.up.up, false);
    assert PathBalanced(p.up, BlackHeight(t)) && PathBalanced(p.up.up, BlackHeight(t) + 1);
  }

  lemma OuterLine(p: Path, t: Tree)
    requires p.Step? && p.up.Step? && p.up.d == p.d
    ensures Line(OuterPath(p), t) == Line(p, t)
    ensures All(OuterPath(p), t) == All(p, t)
  {
    var q, t1 := p.up, Mk(p.d, t, p.n, false, p.sib);
    var t2 := Mk(q.d, t1, q.n, true, q.sib);
    LineUp(p, t, false);
    LineUp(q, t1, true);
    RotatedFacts(t2, !q.d);
    LineUp(OuterPath(p), t, false);
  }

  // ---- what the deletion fixup does to the split tree ----

  // Everything is in order except that the position is one black node short (and its root
  // may be red below a red parent): painting a red root black repairs it.
  ghost predicate Deficit(p: Path, t: Tree) {
    && Balanced(t) && (t.Node? ==> NoRedRed(t.l) && NoRedRed(t.r))
    && PathBalanced(p, BlackHeight(t) + 1) && PathNoRedRed(p, false)
  }

  lemma PaintFacts(t: Tree, c: bool)
    requires t.Node?
    ensures var u := t.(red := c);
      && Inorder(u) == Inorder(t) && Nodes(u) == Nodes(t)
      && BlackHeight(u) == BlackHeight(t.l) + (if c then 0 else 1)
      && (Balanced(u) <==> Balanced(t))
      && (NoRedRed(u) <==> NoRedRed(t.l) && NoRedRed(t.r) && (c ==> !RedRoot(t.l) && !RedRoot(t.r)))
  {
  }

  ghost predicate Sound(p: Path, t: Tree) {
    Balanced(t) && PathBalanced(p, BlackHeight(t)) && NoRedRed(t) && PathNoRedRed(p, RedRoot(t))
  }

  // A red sibling rotated above the parent.
  ghost function LiftedPath(p: Path): Path
    requires p.Step? && p.sib.Node?
  {
    Step(p.d, p.n, true, Sub(p.sib, p.d), Step(p.d, p.sib.n, false, Sub(p.sib, !p.d), p.up))
  }

  lemma LiftedFacts(p: Path, t: Tree)
    requires Deficit(p, t) && p.Step? && RedRoot(p.sib)
    ensures Deficit(LiftedPath(p), t) && !RedRoot(LiftedPath(p).sib)
    ensures Line(LiftedPath(p), t) == Line(p, t) && All(LiftedPath(p), t) == All(p, t)
  {
    var s, d := p.sib, p.d;
    var t1 := Mk(d, t, p.n, true, s.(red := false));
    LineUp(p, t, true);
    assert Inorder(s.(red := false)) == Inorder(s) && Nodes(s.(red := false)) == Nodes(s);
    RotatedFacts(t1, d);
    LineUp(LiftedPath(p), t, true);
    LineUp(LiftedPath(p).up, Mk(d, t, p.n, true, Sub(s, d)), false);
    MkFacts(d, Sub(s, d), s.n, true, Sub(s, !d));
  }

  lemma BlackFits(p: Path, c: bool)
    requires PathNoRedRed(p, c)
    ensures PathNoRedRed(p, false)
  {
  }

  // A black sibling with black children painted red: the parent is short instead.
  ghost function Shifted(p: Path, t: Tree): Tree
    requires p.Step? && p.sib.Node?
  {
    Mk(p.d, t, p.n, p.red, p.sib.(red := true))
  }

  lemma ShiftedFacts(p: Path, t: Tree)
    requires Deficit(p, t) && p.Step? && !RedRoot(t) && p.sib.Node? && !p.sib.red && !RedRoot(p.sib.l) &&
      !RedRoot(p.sib.r)
    ensures Deficit(p.up, Shifted(p, t))
    ensures Line(p.up, Shifted(p, t)) == Line(p, t) && All(p.up, Shifted(p, t)) == All(p, t)
  {
    var s := p.sib;
    LineUp(p, t, p.red);
    PaintFacts(s, true);
    MkFacts(p.d, t, p.n, p.red, s);
    BlackFits(p.up, p.red);
    MkFacts(p.d, t, p.n, p.red, s.(red := true));
  }

  function PaintKid(t: Tree, e: bool): Tree
    requires t.Node? && Sub(t, e).Node?
  {
    Mk(e, Sub(t, e).(red := false), t.n, t.red, Sub(t, !e))
  }

  // The red near child of the sibling rotated above it.
  ghost function NearPath(p: Path): Path
    requires p.Step? && p.sib.Node? && Sub(p.sib, p.d).Node?
  {
    var d, s := p.d, p.sib;
    var near := Sub(s, d);
    p.(sib := Mk(d, Sub(near, d), near.n, false, Mk(d, Sub(near, !d), s.n, true, Sub(s, !d))))
  }

  lemma NearFacts(p: Path, t: Tree)
    requires Deficit(p, t) && p.Step? && p.sib.Node? && !p.sib.red
    requires RedRoot(Sub(p.sib, p.d)) && !RedRoot(Sub(p.sib, !p.d))
    ensures Deficit(NearPath(p), t) && !NearPath(p).sib.red &&
      RedRoot(Sub(NearPath(p).sib, p.d)) == RedRoot(Sub(Sub(p.sib, p.d), p.d))
    ensures RedRoot(Sub(NearPath(p).sib, !p.d))
    ensures Line(NearPath(p), t) == Line(p, t) && All(NearPath(p), t) == All(p, t)
  {
    var d, s := p.d, p.sib;
    var near, far := Sub(s, d), Sub(s, !d);
    assert s == Mk(d, near, s.n, false, far);
    MkFacts(d, near, s.n, false, far);
    var s1 := Mk(d, near.(red := false), s.n, true, far);
    PaintFacts(near, false);
    MkFacts(d, near.(red := false), s.n, true, far);
    RotatedFacts(s1, !d);
    assert near.(red := false) == Mk(d, Sub(near, d), near.n, false, Sub(near, !d));
    MkFacts(d, Sub(near, d), near.n, false, Sub(near, !d));
    MkFacts(d, Sub(near, !d), s.n, true, far);
    MkFacts(d, Sub(near, d), near.n, false, Mk(d, Sub(near, !d), s.n, true, far));
    SiblingLine(p, NearPath(p).sib, t);
  }

  lemma SiblingLine(p: Path, s: Tree, t: Tree)
    requires p.Step? && Inorder(s) == Inorder(p.sib) && Nodes(s) == Nodes(p.sib)
    ensures Line(p.(sib := s), t) == Line(p, t) && All(p.(sib := s), t) == All(p, t)
  {
  }

  // The red far child painted black and the sibling rotated above the parent.
  ghost function Repaired(p: Path, t: Tree): Tree
    requires p.Step? && p.sib.Node? && Sub(p.sib, !p.d).Node?
  {
    var d, s := p.d, p.sib;
    Mk(d, Mk(d, t, p.n, false, Sub(s, d)), s.n, p.red, Sub(s, !d).(red := false))
  }

  // Before the rotation: the sibling in the colour of the parent, the parent and the far nephew black.
  ghost function RepairPath(p: Path): Path
    requires p.Step? && p.sib.Node? && Sub(p.sib, !p.d).Node?
  {
    p.(red := false, sib := PaintKid(p.sib.(red := p.red), !p.d))
  }

  lemma RepairedFacts(p: Path, t: Tree)
    requires Deficit(p, t) && !RedRoot(t) && p.Step? && p.sib.Node? && !p.sib.red && RedRoot(Sub(p.sib, !p.d))
    ensures Sound(p.up, Repaired(p, t)) && (p.up.Top? ==> !Repaired(p, t).red)
    ensures Line(p.up, Repaired(p, t)) == Line(p, t) && All(p.up, Repaired(p, t)) == All(p, t)
  {
    var d, s := p.d, p.sib;
    var near, far := Sub(s, d), Sub(s, !d);
    assert s == Mk(d, near, s.n, false, far);
    MkFacts(d, near, s.n, false, far);
    PaintFacts(far, false);
    MkFacts(d, t, p.n, false, near);
    MkFacts(d, Mk(d, t, p.n, false, near), s.n, p.red, far.(red := false));
    RepairedLine(p, t);
    hide Line, All, Inorder, Nodes;
  }

  lemma RepairedLine(p: Path, t: Tree)
    requires p.Step? && p.sib.Node? && Sub(p.sib, !p.d).Node?
    ensures Line(p.up, Repaired(p, t)) == Line(p, t) && All(p.up, Repaired(p, t)) == All(p, t)
  {
    var d, s := p.d, p.sib;
    var near, far := Sub(s, d), Sub(s, !d);
    var s1 := Mk(d, near, s.n, p.red, far.(red := false));
    assert s == Mk(d, near, s.n, s.red, far);
    MkFacts(d, near, s.n, s.red, far);
    MkFacts(d, near, s.n, p.red, far.(red := false));
    PaintFacts(far, false);
    SiblingLine(p, s1, t);
    LineUp(p.(sib := s1), t, false);
    RotatedFacts(Mk(d, t, p.n, false, s1), d);
  }

  // ---- taking a node out ----

  // The path q continued by p.
  ghost function Concat(q: Path, p: Path): Path {
    match q
    case Top => p
    case Step(d, n, c, s, up) => Step(d, n, c, s, Concat(up, p))
  }

  // A path that only goes through the links of side e.
  ghost predicate Spine(q: Path, e: bool) {
    q.Step? ==> q.d == e && Spine(q.up, e)
  }

  lemma ConcatPlug(q: Path, p: Path, t: Tree)
    ensures Plug(Concat(q, p), t) == Plug(p, Plug(q, t))
  {
    if q.Step? { ConcatPlug(q.up, p, Mk(q.d, t, q.n, q.red, q.sib)); }
  }

  lemma ConcatEnds(q: Path, p: Path)
    ensures PathNodes(Concat(q, p)) == PathNodes(q) + PathNodes(p)
    ensures Spine(q, true) ==> Before(Concat(q, p)) == Before(p)
    ensures Spine(q, false) ==> After(Concat(q, p)) == After(p)
  {
  }

  lemma ConcatFacts(q: Path, p: Path, t: Tree)
    ensures Plug(Concat(q, p), t) == Plug(p, Plug(q, t))
    ensures PathNodes(Concat(q, p)) == PathNodes(q) + PathNodes(p)
    ensures All(Concat(q, p), t) == All(p, Plug(q, t))
    ensures Spine(q, true) ==> Before(Concat(q, p)) == Before(p)
    ensures Spine(q, false) ==> After(Concat(q, p)) == After(p)
  {
    ConcatPlug(q, p, t);
    ConcatEnds(q, p);
    PlugAll(q, t);
  }

  // Renaming a node of a path.
  lemma ConcatRenamed(q: Path, p: Path, y: Ptr, h: int, c: bool)
    requires p.Step? && !p.d
    ensures PathBalanced(Concat(q, p), h) ==> PathBalanced(Concat(q, p.(n := y)), h)
    ensures PathNoRedRed(Concat(q, p), c) ==> PathNoRedRed(Concat(q, p.(n := y)), c)
    ensures After(Concat(q, p)) == After(Concat(q, p.(n := y)))
  {
    if q.Step? {
      ConcatRenamed(q.up, p, y, h + if q.red then 0 else 1, q.red);
    }
  }

  lemma UnplugColours(p: Path, t: Tree)
    requires RedBlack(Plug(p, t))
    ensures Sound(p, t) && (p.Top? ==> !RedRoot(t))
  {
    if p.Step? {
      UnplugColours(p.up, Mk(p.d, t, p.n, p.red, p.sib));
      MkFacts(p.d, t, p.n, p.red, p.sib);
    }
  }

  // What remains of a tree whose root has at most one child when the root goes.
  ghost function OnlyKid(t: Tree): Tree
    requires t.Node?
  {
    if t.l.Node? then t.l else t.r
  }

  lemma OnlyKidFacts(p: Path, t: Tree)
    requires t.Node? && (t.l.Leaf? || t.r.Leaf?) && Sound(p, t)
    ensures if t.red then Sound(p, OnlyKid(t)) && !RedRoot(OnlyKid(t)) else Deficit(p, OnlyKid(t))
    ensures Inorder(t) == Inorder(t.l) + [t.n] + Inorder(t.r) && Inorder(OnlyKid(t)) == Inorder(t.l) + Inorder(t.r)
  {
    var k := OnlyKid(t);
    assert Balanced(k) && NoRedRed(k) && (t.red ==> !RedRoot(k));
    assert k.Node? ==> NoRedRed(k.l) && NoRedRed(k.r);
    BlackFits(p, t.red);
    assert t.l.Leaf? ==> Inorder(t.l) == [];
    assert t.r.Leaf? ==> Inorder(t.r) == [];
  }

  ghost function Without(s: seq<Ptr>, k: nat): seq<Ptr>
    requires k < |s|
  {
    s[..k] + s[k + 1..]
  }

  // Where z stands in the order when it roots t at the end of p.
  ghost function Rank(p: Path, t: Tree): nat
    requires t.Node?
  {
    |Before(p)| + |Inorder(t.l)|
  }

  lemma RankFacts(p: Path, t: Tree)
    requires t.Node?
    ensures Rank(p, t) < |Line(p, t)| && Line(p, t)[Rank(p, t)] == t.n
  {
  }

  // Counting from the other end.
  lemma LineIs(p: Path, t: Tree)
    ensures Line(p, t) == Before(p) + Inorder(t) + After(p)
  {
  }

  lemma RankLast(p: Path, t: Tree)
    requires t.Node? && t.r.Leaf?
    ensures Rank(p, t) + 1 == |Line(p, t)| - |After(p)|
    ensures After(p) != [] ==> Line(p, t)[Rank(p, t) + 1] == After(p)[0]
  {
    assert Inorder(t) == Inorder(t.l) + [t.n];
    hide Before, After, Inorder;
  }

  lemma RankFirst(p: Path, t: Tree)
    requires t.Node? && t.l.Leaf?
    ensures Rank(p, t) == |Before(p)| && Rank(p, t) < |Line(p, t)|
    ensures Before(p) != [] ==> Line(p, t)[Rank(p, t) - 1] == Before(p)[|Before(p)| - 1]
  {
    assert Inorder(t.l) == [] && |Inorder(t)| > 0;
    hide Before, After, Inorder;
  }

  lemma RankAfter(p: Path, t: Tree)
    requires t.Node?
    ensures Rank(p, t) == |Line(p, t)| - 1 - |Inorder(t.r)| - |After(p)|
  {
  }

  lemma WithoutOne(a: seq<Ptr>, l: seq<Ptr>, n: Ptr, r: seq<Ptr>, b: seq<Ptr>)
    ensures Without(a + (l + [n] + r) + b, |a| + |l|) == a + (l + r) + b
  {
    var s, k := a + (l + [n] + r) + b, |a| + |l|;
    assert s[..k] == a + l;
    assert s[k + 1..] == r + b;
    assert a + (l + r) + b == (a + l) + (r + b);
  }

  lemma WithoutTwo(a: seq<Ptr>, l: seq<Ptr>, z: Ptr, y: Ptr, r: seq<Ptr>, b: seq<Ptr>)
    ensures Without((a + l + [z]) + ([] + [y] + r) + b, |a| + |l|) == (a + l + [y]) + r + b
  {
    var s, k := (a + l + [z]) + ([] + [y] + r) + b, |a| + |l|;
    assert s[..k] == a + l;
    assert s[k + 1..] == [y] + r + b;
    assert (a + l + [y]) + r + b == (a + l) + ([y] + r + b);
  }

  lemma OuterLineWithout(p: Path, t: Tree)
    requires t.Node? && (t.l.Leaf? || t.r.Leaf?)
    ensures Rank(p, t) < |Line(p, t)| && Line(p, OnlyKid(t)) == Without(Line(p, t), Rank(p, t))
  {
    assert Inorder(OnlyKid(t)) == Inorder(t.l) + Inorder(t.r) by { assert Inorder(t.l) == [] || Inorder(t.r) == []; }
    assert Inorder(t) == Inorder(t.l) + [t.n] + Inorder(t.r);
    hide Inorder, Before, After, Without;
    WithoutOne(Before(p), Inorder(t.l), t.n, Inorder(t.r), After(p));
  }

  // The path to the successor of the root of t, below its right link.
  ghost function Below(q: Path, p: Path, t: Tree, z: Ptr): Path
    requires t.Node?
  {
    Concat(q, Step(false, z, t.red, t.l, p))
  }

  lemma BelowLine(q: Path, p: Path, t: Tree, u: Tree)
    requires t.Node? && t.r == Plug(q, u)
    ensures Line(Below(q, p, t, t.n), u) == Line(p, t) && All(Below(q, p, t, t.n), u) == All(p, t)
  {
    var p1 := Step(false, t.n, t.red, t.l, p);
    LineDown(q, p1, u);
    ConcatFacts(q, p1, u);
    LineUp(p1, t.r, t.red);
  }

  // The position of the predecessor of the root of t, below its left link.
  ghost function BelowLeft(q: Path, p: Path, t: Tree): Path
    requires t.Node?
  {
    Concat(q, Step(true, t.n, t.red, t.r, p))
  }

  lemma BelowLeftLine(q: Path, p: Path, t: Tree, u: Tree)
    requires t.Node? && t.l == Plug(q, u)
    ensures Line(BelowLeft(q, p, t), u) == Line(p, t)
  {
    var p1 := Step(true, t.n, t.red, t.r, p);
    LineDown(q, p1, u);
    LineUp(p1, t.l, t.red);
  }

  lemma InnerLineWithout(q: Path, p: Path, t: Tree, u: Tree)
    requires t.Node? && u.Node? && u.l.Leaf? && Spine(q, true)
    requires Rank(p, t) < |Line(Below(q, p, t, t.n), u)|
    ensures Line(Below(q, p, t, u.n), u.r) == Without(Line(Below(q, p, t, t.n), u), Rank(p, t))
  {
    var p1 := Step(false, t.n, t.red, t.l, p);
    ConcatFacts(q, p1, u);
    ConcatFacts(q, p1.(n := u.n), u);
    ConcatRenamed(q, p1, u.n, 0, false);
    assert Inorder(u) == [] + [u.n] + Inorder(u.r) by { assert Inorder(u.l) == []; }
    WithoutTwo(Before(p), Inorder(t.l), t.n, u.n, Inorder(u.r), After(Concat(q, p1)));
  }

  lemma LineDown(q: Path, p: Path, t: Tree)
    ensures Line(Concat(q, p), t) == Line(p, Plug(q, t))
  {
    if q.Step? {
      LineUp(Concat(q, p), t, q.red);
      LineDown(q.up, p, Mk(q.d, t, q.n, q.red, q.sib));
    }
  }

  lemma InorderMembers(t: Tree)
    ensures forall n :: n in Inorder(t) <==> n in Nodes(t)
  {
  }

  lemma InorderDistinct(t: Tree)
    requires Distinct(t)
    ensures forall i, j :: 0 <= i < j < |Inorder(t)| ==> Inorder(t)[i] != Inorder(t)[j]
  {
    if t.Node? {
      InorderDistinct(t.l);
      InorderDistinct(t.r);
      InorderMembers(t.l);
      InorderMembers(t.r);
      var s, l, r := Inorder(t), Inorder(t.l), Inorder(t.r);
      forall i, j | 0 <= i < j < |s| ensures s[i] != s[j] {
        assert i < |l| ==> s[i] == l[i] && l[i] in Nodes(t.l);
        assert j > |l| ==> s[j] == r[j - |l| - 1] && r[j - |l| - 1] in Nodes(t.r);
        if j < |l| {
          assert l[i] != l[j];
        } else if i > |l| {
          assert s[i] == r[i - |l| - 1] && r[i - |l| - 1] != r[j - |l| - 1];
        }
      }
    }
  }

  // ---- height ----

  ghost function Pow2(n: nat): nat {
    if n == 0 then 1 else 2 * Pow2(n - 1)
  }

  ghost function BlackSteps(p: Path): nat {
    if p.Top? then 0 else BlackSteps(p.up) + if p.red then 0 else 1
  }

  // A path is at most twice as long as its black nodes are many, counting a red end too.
  lemma PathLength(p: Path, c: bool)
    requires PathNoRedRed(p, c) && (c ==> p.Step?)
    ensures Length(p) + (if c then 1 else 0) <= 2 * BlackSteps(p)
  {
    if p.Step? {
      PathLength(p.up, p.red);
    }
  }

  lemma PlugHeight(p: Path, t: Tree)
    requires PathBalanced(p, BlackHeight(t))
    ensures BlackHeight(Plug(p, t)) == BlackHeight(t) + BlackSteps(p)
  {
    if p.Step? {
      MkFacts(p.d, t, p.n, p.red, p.sib);
      PlugHeight(p.up, Mk(p.d, t, p.n, p.red, p.sib));
    }
  }

  // A balanced tree of black height h has at least 2^(h-1) - 1 nodes.
  lemma SizeBound(t: Tree)
    requires Balanced(t)
    ensures BlackHeight(t) >= 1 && Pow2(BlackHeight(t) - 1) <= |Inorder(t)| + 1
  {
    if t.Node? {
      SizeBound(t.l);
      SizeBound(t.r);
    }
  }

  // Following p and then looking at the root of t compares at most 2 * log2(n + 1) nodes.
  lemma DepthBound(p: Path, t: Tree) returns (h: nat)
    requires RedBlack(Plug(p, t))
    ensures Length(p) + (if t.Node? then 1 else 0) <= 2 * h
    ensures Pow2(h) <= |Inorder(Plug(p, t))| + 1
  {
    UnplugColours(p, t);
    PathLength(p, RedRoot(t));
    PlugHeight(p, t);
    SizeBound(Plug(p, t));
    BlackHeightPositive(t);
    if t.Node? { BlackHeightPositive(t.l); }
    h := BlackHeight(Plug(p, t)) - 1;
  }

  ghost function Depth(t: Tree, n: Ptr): nat {
    if t.Leaf? || n == t.n then 0
    else 1 + Depth(if n in Nodes(t.l) then t.l else t.r, n)
  }

  lemma PlugDepth(p: Path, t: Tree, n: Ptr)
    requires Distinct(t) && PathDistinct(p) && Nodes(t) !! PathNodes(p) && n in Nodes(t)
    ensures Depth(Plug(p, t), n) == Length(p) + Depth(t, n)
  {
    if p.Step? {
      PlugDepth(p.up, Mk(p.d, t, p.n, p.red, p.sib), n);
    }
  }

  function Cmp(compare: (Ptr, Ptr) -> int, a: Ptr, b: Ptr): int { compare(a, b) }

  // A compare function that orders all nodes, possibly with ties.
  ghost predicate IsPreorder(compare: (Ptr, Ptr) -> int) {
    && (forall a, b :: Cmp(compare, a, b) > 0 <==> Cmp(compare, b, a) < 0)
    && (forall a, b, c :: Cmp(compare, a, b) <= 0 && Cmp(compare, b, c) <= 0 ==> Cmp(compare, a, c) <= 0)
  }

  // Wherever z stands in s, y is right behind it, or is end if z is the last.
  ghost predicate Behind(s: seq<Ptr>, z: Ptr, y: Ptr, end: Ptr) {
    forall k :: 0 <= k < |s| && s[k] == z ==> y == if k + 1 < |s| then s[k + 1] else end
  }

  ghost predicate Ahead(s: seq<Ptr>, z: Ptr, y: Ptr, end: Ptr) {
    forall k :: 0 <= k < |s| && s[k] == z ==> y == if k > 0 then s[k - 1] else end
  }

  lemma IsBehind(s: seq<Ptr>, z: Ptr, y: Ptr, end: Ptr, k: nat)
    requires k < |s| && s[k] == z && forall j :: 0 <= j < |s| && s[j] == s[k] ==> j == k
    requires y == if k + 1 < |s| then s[k + 1] else end
    ensures Behind(s, z, y, end)
  {
  }

  lemma IsAhead(s: seq<Ptr>, z: Ptr, y: Ptr, end: Ptr, k: nat)
    requires k < |s| && s[k] == z && forall j :: 0 <= j < |s| && s[j] == s[k] ==> j == k
    requires y == if k > 0 then s[k - 1] else end
    ensures Ahead(s, z, y, end)
  {
  }

  lemma BehindAt(s: seq<Ptr>, z: Ptr, y: Ptr, end: Ptr, k: nat)
    requires k < |s| && s[k] == z && Behind(s, z, y, end)
    ensures y == if k + 1 < |s| then s[k + 1] else end
  {
  }

  lemma AheadAt(s: seq<Ptr>, z: Ptr, y: Ptr, end: Ptr, k: nat)
    requires k < |s| && s[k] == z && Ahead(s, z, y, end)
    ensures y == if k > 0 then s[k - 1] else end
  {
  }

  class RbTree {
    const nil: Ptr
    const root: Ptr
    const compare: (Ptr, Ptr) -> int
    var mem: Mem
    ghost var tree: Tree

    // rb_tree_create, given the two nodes it obtains
    constructor (mem: Mem, nilAt: Ptr, rootAt: Ptr, compare: (Ptr, Ptr) -> int)
      requires nilAt in mem && rootAt in mem && nilAt != rootAt && IsPreorder(compare)
      ensures Valid() && tree == Leaf && nil == nilAt && root == rootAt && this.compare == compare
      ensures Same(mem, this.mem, {nilAt, rootAt})
    {
      this.mem := mem[nilAt := RbNode(false, nilAt, nilAt, nilAt)][rootAt := RbNode(false, nilAt, nilAt, nilAt)];
      this.compare := compare;
      nil, root := nilAt, rootAt;
      tree := Leaf;
    }

    ghost predicate Shape(m: Mem, t: Tree, x: Ptr, par: Ptr) {
      match t
      case Leaf => x == nil
      case Node(l, n, c, r) =>
        && x == n && n in m && m[n].parent == par && m[n].red == c
        && Shape(m, l, m[n].left, n) && Shape(m, r, m[n].right, n)
    }

    ghost function Owner(p: Path): Ptr {
      if p.Top? then root else p.n
    }

    ghost predicate PathShape(m: Mem, p: Path, x: Ptr) {
      match p
      case Top => root in m && m[root].left == x && m[root].right == nil
      case Step(d, n, c, s, up) =>
        && n in m && m[n].red == c && m[n].Kid(d) == x && m[n].parent == Owner(up)
        && Shape(m, s, m[n].Kid(!d), n) && PathShape(m, up, n)
    }

    // The tree t sits at the end of p and all of their nodes are different.
    ghost predicate Whole(p: Path, t: Tree) {
      && Distinct(t) && PathDistinct(p) && Nodes(t) !! PathNodes(p)
      && nil != root && {nil, root} !! Nodes(t) && {nil, root} !! PathNodes(p)
    }

    // The structs in m link t together at x and the rest of the tree along p.
    ghost predicate At(m: Mem, p: Path, t: Tree, x: Ptr) {
      Whole(p, t) && Shape(m, t, x, Owner(p)) && PathShape(m, p, x)
    }

    lemma Frame(m: Mem, m': Mem, t: Tree, x: Ptr, par: Ptr)
      requires Shape(m, t, x, par)
      requires forall n :: n in Nodes(t) && n in m ==> n in m' && m'[n] == m[n]
      ensures Shape(m', t, x, par)
    {
    }

    lemma Reparent(m: Mem, m': Mem, t: Tree, x: Ptr, par: Ptr, par': Ptr)
      requires Shape(m, t, x, par) && Distinct(t)
      requires t.Node? ==> x in m' && m'[x] == m[x].(parent := par')
      requires forall n :: n in Nodes(t) && n in m && n != x ==> n in m' && m'[n] == m[n]
      ensures Shape(m', t, x, par')
    {
      if t.Node? {
        Frame(m, m', t.l, m[x].left, x);
        Frame(m, m', t.r, m[x].right, x);
      }
    }

    lemma PathFrame(m: Mem, m': Mem, p: Path, x: Ptr)
      requires PathShape(m, p, x)
      requires forall n :: (n in PathNodes(p) || n == root) && n in m ==> n in m' && m'[n] == m[n]
      ensures PathShape(m', p, x)
    {
      if p.Step? {
        Frame(m, m', p.sib, m[p.n].Kid(!p.d), p.n);
      }
    }

    // Hanging y instead of x under the last link of a path.
    lemma Rehang(m: Mem, m': Mem, p: Path, x: Ptr, y: Ptr)
      requires PathShape(m, p, x) && PathDistinct(p) && root !in PathNodes(p)
      requires Owner(p) in m' && m'[Owner(p)] == m[Owner(p)].WithKid(p.Step? ==> p.d, y)
      requires forall n :: (n in PathNodes(p) || n == root) && n in m && n != Owner(p) ==> n in m' && m'[n] == m[n]
      ensures PathShape(m', p, y)
    {
      if p.Step? {
        Frame(m, m', p.sib, m[p.n].Kid(!p.d), p.n);
        PathFrame(m, m', p.up, p.n);
      }
    }

    // What FUNC_ROTATE does to the four structs it touches.
    ghost predicate Rotation(m: Mem, m': Mem, x: Ptr, y: Ptr, b: Ptr, par: Ptr, d: bool) {
      && x in m && y in m && par in m && (b != nil ==> b in m) && m'.Keys == m.Keys
      && m'[x] == m[x].WithKid(!d, b).(parent := y)
      && m'[y] == m[y].WithKid(d, x).(parent := par)
      && m'[par] == (if m[par].Kid(d) == x then m[par].WithKid(d, y) else m[par].WithKid(!d, y))
      && (b != nil ==> m'[b] == m[b].(parent := x))
      && forall n :: n in m && n != x && n != y && n != par && (n == b ==> b == nil) ==> m'[n] == m[n]
    }

    ghost predicate Rotatable(m: Mem, x: Ptr, d: bool) {
      && x in m && m[x].Kid(!d) in m && m[x].parent in m
      && x != nil && m[x].Kid(!d) != nil && m[x].parent != nil
      && var y, par := m[x].Kid(!d), m[x].parent; var b := m[y].Kid(d);
      && (b != nil ==> b in m && b != x && b != y && b != par)
      && x != y && y != par && x != par
    }

    method Rotate(x: Ptr, d: bool)
      requires Rotatable(mem, x, d)
      modifies this`mem
      ensures var y, par := old(mem[x].Kid(!d)), old(mem[x].parent);
              Rotation(old(mem), mem, x, y, old(mem[y].Kid(d)), par, d)
    {
      var y := mem[x].Kid(!d);
      var b := mem[y].Kid(d);
      mem := mem[x := mem[x].WithKid(!d, b)];
      if b != nil { mem := mem[b := mem[b].(parent := x)]; }
      var par := mem[x].parent;
      mem := mem[y := mem[y].(parent := par)];
      if x == mem[par].Kid(d) { mem := mem[par := mem[par].WithKid(d, y)]; }
      else { mem := mem[par := mem[par].WithKid(!d, y)]; }
      mem := mem[y := mem[y].WithKid(d, x)];
      mem := mem[x := mem[x].(parent := y)];
    }

    lemma KidShape(m: Mem, t: Tree, x: Ptr, par: Ptr, d: bool)
      requires Shape(m, t, x, par) && t.Node?
      ensures forall e :: Shape(m, Sub(t, e), m[x].Kid(e), x)
      ensures if Sub(t, d).Node? then m[x].Kid(d) == Sub(t, d).n && Sub(t, d).n in Nodes(Sub(t, d))
        else m[x].Kid(d) == nil
    {
    }

    // The link of its owner a subtree hangs on, as the code tests it.
    lemma WhichKid(m: Mem, p: Path, t: Tree, x: Ptr)
      requires Whole(p, t) && t.Node? && Shape(m, t, x, Owner(p)) && PathShape(m, p, x)
      ensures m[x].parent == Owner(p) && Owner(p) in m && Owner(p) !in Nodes(t) && Owner(p) != nil
      ensures var d := p.Step? ==> p.d; m[Owner(p)].Kid(d) == x && m[Owner(p)].Kid(!d) != x
    {
    }

    lemma RotateSub(m: Mem, m': Mem, x: Ptr, d: bool, t: Tree, par: Ptr)
      requires t.Node? && Sub(t, !d).Node? && Distinct(t) && nil !in Nodes(t) && par !in Nodes(t) && Shape(m, t, x, par)
      requires var y := m[x].Kid(!d); y in m && Rotation(m, m', x, y, m[y].Kid(d), par, d)
      ensures Shape(m', Rotated(t, d), Sub(t, !d).n, par)
    {
      var u := Sub(t, !d);
      KidFacts(t, d);
      KidFacts(u, d);
      KidShape(m, t, x, par, d);
      var y := u.n;
      var b := m[y].Kid(d);
      KidShape(m, u, y, x, d);
      Frame(m, m', Sub(t, d), m[x].Kid(d), x);
      Reparent(m, m', Sub(u, d), b, y, x);
      Frame(m, m', Sub(u, !d), m[y].Kid(!d), y);
    }

    // ---- moving the position, painting and rotating at it ----

    lemma Down(m: Mem, p: Path, t: Tree, x: Ptr, d: bool)
      requires At(m, p, t, x) && t.Node?
      ensures At(m, Step(d, x, t.red, Sub(t, !d), p), Sub(t, d), m[x].Kid(d))
      ensures Plug(Step(d, x, t.red, Sub(t, !d), p), Sub(t, d)) == Plug(p, t)
    {
      KidFacts(t, d);
    }

    lemma Up(m: Mem, p: Path, t: Tree, x: Ptr)
      requires At(m, p, t, x) && p.Step?
      ensures At(m, p.up, Mk(p.d, t, p.n, p.red, p.sib), p.n)
    {
    }

    // What the struct at a position and its owner hold.
    lemma Look(m: Mem, p: Path, t: Tree, x: Ptr)
      requires At(m, p, t, x)
      ensures nil != root && nil !in All(p, t) && root !in All(p, t)
      ensures t.Leaf? ==> x == nil
      ensures t.Node? ==> x !in PathNodes(p)
      ensures t.Node? ==> x == t.n && x != nil && x in m && m[x].parent == Owner(p) && m[x].red == t.red
      ensures p.Top? ==> root in m && m[root].left == x && m[root].right == nil
      ensures Owner(p) in m && Owner(p) != nil && (p.Step? ==> Owner(p) != root)
      ensures p.Step? ==> m[p.n].red == p.red && m[p.n].Kid(p.d) == x && m[p.n].parent == Owner(p.up)
      ensures p.Step? && p.sib.Node? ==> m[p.n].Kid(!p.d) == p.sib.n && p.sib.n in m && m[p.sib.n].red == p.sib.red
      ensures p.Step? && t.Node? ==> m[p.n].Kid(!p.d) != x
      ensures p.Step? && p.sib.Leaf? ==> m[p.n].Kid(!p.d) == nil
    {
    }

    lemma RotateShape(m: Mem, m': Mem, x: Ptr, d: bool, p: Path, t: Tree)
      requires At(m, p, t, x) && t.Node? && Sub(t, !d).Node?
      requires var y := m[x].Kid(!d); y in m && Rotation(m, m', x, y, m[y].Kid(d), m[x].parent, d)
      ensures At(m', p, Rotated(t, d), Sub(t, !d).n)
    {
      var y := m[x].Kid(!d);
      WhichKid(m, p, t, x);
      RotateSub(m, m', x, d, t, Owner(p));
      KidFacts(t, d);
      KidShape(m, t, x, Owner(p), d);
      KidShape(m, Sub(t, !d), y, x, d);
      Rehang(m, m', p, x, y);
      RotatedFacts(t, d);
      RotatedDistinct(t, d);
    }

    ghost predicate Same(m: Mem, m': Mem, but: set<Ptr>) {
      m'.Keys == m.Keys && forall n :: n in m && n !in but ==> m'[n] == m[n]
    }

    lemma PaintedAt(m: Mem, p: Path, t: Tree, x: Ptr, c: bool)
      requires At(m, p, t, x) && t.Node?
      ensures x in m && At(m[x := m[x].(red := c)], p, t.(red := c), x)
    {
      var m' := m[x := m[x].(red := c)];
      KidFacts(t, true);
      Frame(m, m', t.l, m[x].left, x);
      Frame(m, m', t.r, m[x].right, x);
      PathFrame(m, m', p, x);
    }

    method Paint(x: Ptr, c: bool, ghost p: Path, ghost t: Tree)
      requires At(mem, p, t, x) && t.Node?
      modifies this`mem
      ensures At(mem, p, t.(red := c), x)
      ensures x in old(mem) && mem == old(mem)[x := old(mem[x]).(red := c)] && Same(old(mem), mem, {x})
    {
      PaintedAt(mem, p, t, x, c);
      mem := mem[x := mem[x].(red := c)];
    }

    // Painting the owner of a position.
    method PaintParent(par: Ptr, c: bool, ghost p: Path, ghost t: Tree, ghost x: Ptr)
      requires At(mem, p, t, x) && p.Step? && par == p.n
      modifies this`mem
      ensures At(mem, p.(red := c), t, x)
      ensures par in old(mem) && mem == old(mem)[par := old(mem[par]).(red := c)]
      ensures Same(old(mem), mem, {par}) && All(p.(red := c), t) == All(p, t) && par in All(p, t)
    {
      ghost var m := mem;
      mem := mem[par := mem[par].(red := c)];
      Frame(m, mem, t, x, par);
      Frame(m, mem, p.sib, m[par].Kid(!p.d), par);
      PathFrame(m, mem, p.up, par);
    }

    // Painting the sibling of a position.
    method PaintSibling(w: Ptr, c: bool, ghost p: Path, ghost t: Tree, ghost x: Ptr)
      requires At(mem, p, t, x) && p.Step? && p.sib.Node? && w == p.sib.n
      modifies this`mem
      ensures At(mem, p.(sib := p.sib.(red := c)), t, x)
      ensures w in old(mem) && mem == old(mem)[w := old(mem[w]).(red := c)]
      ensures Same(old(mem), mem, {w}) && All(p.(sib := p.sib.(red := c)), t) == All(p, t) && w in All(p, t)
    {
      hide At;
      Up(mem, p, t, x);
      ghost var s, t1 := p.sib, Mk(p.d, t, p.n, p.red, p.sib);
      Down(mem, p.up, t1, p.n, !p.d);
      Look(mem, p, t, x);
      Paint(w, c, Step(!p.d, p.n, p.red, t, p.up), s);
      Up(mem, Step(!p.d, p.n, p.red, t, p.up), s.(red := c), w);
      Down(mem, p.up, Mk(p.d, t, p.n, p.red, s.(red := c)), p.n, p.d);
      Look(mem, p.(sib := s.(red := c)), t, mem[p.n].Kid(p.d));
      assert w in Nodes(s) && Nodes(s.(red := c)) == Nodes(s);
    }

    lemma LookKids(m: Mem, p: Path, t: Tree, x: Ptr)
      requires At(m, p, t, x) && t.Node?
      ensures x == t.n && x in m && x != nil && (m[x].left == nil <==> t.l.Leaf?) && (m[x].right == nil <==> t.r.Leaf?)
    {
      KidFacts(t, true);
      KidShape(m, t, x, Owner(p), true);
      KidShape(m, t, x, Owner(p), false);
    }

    lemma LookNephew(m: Mem, p: Path, t: Tree, x: Ptr, e: bool)
      requires At(m, p, t, x) && p.Step? && p.sib.Node?
      ensures p.n in m && p.sib.n in m && m[p.n].Kid(!p.d) == p.sib.n
      ensures if Sub(p.sib, e).Node? then m[p.sib.n].Kid(e) == Sub(p.sib, e).n && Sub(p.sib, e).n in m &&
        m[Sub(p.sib, e).n].red == Sub(p.sib, e).red
              else m[p.sib.n].Kid(e) == nil
    {
      KidShape(m, p.sib, p.sib.n, p.n, e);
    }

    lemma CanRotate(m: Mem, x: Ptr, d: bool, p: Path, t: Tree)
      requires At(m, p, t, x) && t.Node? && Sub(t, !d).Node?
      ensures Rotatable(m, x, d)
      ensures x in Nodes(t) && m[x].Kid(!d) in Nodes(t) && m[x].parent == Owner(p)
      ensures m[m[x].Kid(!d)].Kid(d) != nil ==> m[m[x].Kid(!d)].Kid(d) in Nodes(t)
    {
      KidFacts(t, d);
      KidShape(m, t, x, Owner(p), !d);
      var u := Sub(t, !d);
      KidFacts(u, d);
      KidShape(m, u, m[x].Kid(!d), x, d);
      WhichKid(m, p, t, x);
    }

    method RotateAt(x: Ptr, d: bool, ghost p: Path, ghost t: Tree)
      requires At(mem, p, t, x) && t.Node? && Sub(t, !d).Node?
      modifies this`mem
      ensures At(mem, p, Rotated(t, d), Sub(t, !d).n)
      ensures Same(old(mem), mem, All(p, t) + {root})
      ensures forall n :: n in mem ==> mem[n].red == old(mem)[n].red
    {
      CanRotate(mem, x, d, p, t);
      Rotate(x, d);
      RotateShape(old(mem), mem, x, d, p, t);
    }

    // ---- rb_insert ----

    ghost predicate Sorted(s: seq<Ptr>) {
      forall i, j :: 0 <= i < j < |s| ==> Cmp(compare, s[i], s[j]) <= 0
    }

    ghost predicate Valid()
      reads this
    {
      && root in mem && At(mem, Top, tree, mem[root].left)
      && nil in mem && !mem[nil].red && !mem[root].red
      && RedBlack(tree) && IsPreorder(compare) && Sorted(Inorder(tree))
    }

    lemma Close(m: Mem, p: Path, t: Tree, x: Ptr)
      requires At(m, p, t, x)
      ensures root in m && At(m, Top, Plug(p, t), m[root].left)
      decreases p
    {
      if p.Step? {
        Up(m, p, t, x);
        Close(m, p.up, Mk(p.d, t, p.n, p.red, p.sib), p.n);
      }
    }

    ghost predicate AllLe(s: seq<Ptr>, z: Ptr) {
      forall i :: 0 <= i < |s| ==> Cmp(compare, s[i], z) <= 0
    }

    ghost predicate AllGt(s: seq<Ptr>, z: Ptr) {
      forall i :: 0 <= i < |s| ==> Cmp(compare, s[i], z) > 0
    }

    // z belongs after everything on the path's left and before everything on its right.
    ghost predicate Fits(p: Path, z: Ptr) {
      AllLe(Before(p), z) && AllGt(After(p), z)
    }

    lemma SplitOrder(a: seq<Ptr>, l: seq<Ptr>, n: Ptr, r: seq<Ptr>, b: seq<Ptr>)
      requires Sorted(a + (l + [n] + r) + b)
      ensures forall i :: 0 <= i < |l| ==> Cmp(compare, l[i], n) <= 0
      ensures forall i :: 0 <= i < |r| ==> Cmp(compare, n, r[i]) <= 0
    {
      var o, k := a + (l + [n] + r) + b, |a| + |l|;
      assert o[k] == n;
      assert forall i :: 0 <= i < |l| ==> o[|a| + i] == l[i];
      assert forall i :: 0 <= i < |r| ==> o[k + 1 + i] == r[i];
    }

    lemma LeTrans(s: seq<Ptr>, n: Ptr, z: Ptr)
      requires IsPreorder(compare) && Cmp(compare, n, z) <= 0 && forall i :: 0 <= i < |s| ==> Cmp(compare, s[i], n) <= 0
      ensures AllLe(s + [n], z)
    {
      forall i | 0 <= i < |s| ensures Cmp(compare, s[i], z) <= 0 {
        assert Cmp(compare, s[i], n) <= 0;
      }
    }

    lemma GtTrans(n: Ptr, s: seq<Ptr>, z: Ptr)
      requires IsPreorder(compare) && Cmp(compare, n, z) > 0 && forall i :: 0 <= i < |s| ==> Cmp(compare, n, s[i]) <= 0
      ensures AllGt([n] + s, z)
    {
      forall i | 0 <= i < |s| ensures Cmp(compare, s[i], z) > 0 {
        assert Cmp(compare, n, s[i]) <= 0;
        assert Cmp(compare, s[i], z) <= 0 ==> Cmp(compare, n, z) <= 0;
      }
    }

    lemma AllConcat(s: seq<Ptr>, t: seq<Ptr>, z: Ptr)
      ensures AllLe(s, z) && AllLe(t, z) ==> AllLe(s + t, z)
      ensures AllGt(s, z) && AllGt(t, z) ==> AllGt(s + t, z)
    {
    }

    lemma FitsDown(p: Path, t: Tree, z: Ptr, d: bool)
      requires t.Node? && IsPreorder(compare) && Sorted(Inorder(Plug(p, t))) && Fits(p, z)
      requires d <==> Cmp(compare, t.n, z) > 0
      ensures Fits(Step(d, t.n, t.red, Sub(t, !d), p), z)
    {
      PlugInorder(p, t);
      var l, r := Inorder(t.l), Inorder(t.r);
      SplitOrder(Before(p), l, t.n, r, After(p));
      if d {
        GtTrans(t.n, r, z);
        AllConcat([t.n] + r, After(p), z);
      } else {
        LeTrans(l, t.n, z);
        AllConcat(Before(p), l + [t.n], z);
        assert Before(p) + l + [t.n] == Before(p) + (l + [t.n]);
      }
    }

    // The descent of rb_insert_binary: the struct y that becomes the parent of z.
    method Descend(z: Ptr) returns (y: Ptr, ghost p: Path)
      requires root in mem && At(mem, Top, tree, mem[root].left)
      requires IsPreorder(compare) && Sorted(Inorder(tree))
      ensures At(mem, p, Leaf, nil) && y == Owner(p) && Plug(p, Leaf) == tree && Fits(p, z)
      ensures p.Step? ==> (Cmp(compare, y, z) > 0 <==> p.d)
    {
      y := root;
      var x := mem[y].left;
      ghost var t := tree;
      p := Top;
      while x != nil
        invariant At(mem, p, t, x) && y == Owner(p) && Plug(p, t) == tree && Fits(p, z)
        invariant p.Step? ==> (Cmp(compare, y, z) > 0 <==> p.d)
        decreases t
      {
        y := x;
        ghost var d := Cmp(compare, x, z) > 0;
        Down(mem, p, t, x, d);
        FitsDown(p, t, z, d);
        x := if compare(x, z) > 0 then mem[x].left else mem[x].right;
        p, t := Step(d, t.n, t.red, Sub(t, !d), p), Sub(t, d);
      }
    }

    method InsertBinary(z: Ptr) returns (ghost p: Path)
      requires root in mem && At(mem, Top, tree, mem[root].left)
      requires IsPreorder(compare) && Sorted(Inorder(tree))
      requires z in mem && z != nil && z != root && z !in Nodes(tree)
      modifies this`mem
      ensures z in mem && At(mem, p, Node(Leaf, z, mem[z].red, Leaf), z)
      ensures Plug(p, Leaf) == tree && Fits(p, z)
      ensures Same(old(mem), mem, Nodes(tree) + {root, z})
      ensures forall n :: n in mem ==> mem[n].red == old(mem)[n].red
    {
      mem := mem[z := mem[z].(left := nil, right := nil)];
      Frame(old(mem), mem, tree, mem[root].left, root);
      var y;
      y, p := Descend(z);
      PlugDistinct(p, Leaf);
      Link(z, y, p);
    }

    method Link(z: Ptr, y: Ptr, ghost p: Path)
      requires At(mem, p, Leaf, nil) && y == Owner(p)
      requires p.Step? ==> (Cmp(compare, y, z) > 0 <==> p.d)
      requires z in mem && z != nil && z != root && z !in PathNodes(p) && mem[z].left == mem[z].right == nil
      modifies this`mem
      ensures z in mem && At(mem, p, Node(Leaf, z, mem[z].red, Leaf), z)
      ensures Same(old(mem), mem, {y, z})
      ensures forall n :: n in mem ==> mem[n].red == old(mem)[n].red
    {
      mem := mem[z := mem[z].(parent := y)];
      if y == root || compare(y, z) > 0 {
        mem := mem[y := mem[y].(left := z)];
      } else {
        mem := mem[y := mem[y].(right := z)];
      }
      Rehang(old(mem), mem, p, nil, z);
    }

    // The first case of RB_INSERT_SUB: parent and uncle black, grandparent red.
    method Recolor(x: Ptr, y: Ptr, ghost p: Path, ghost t: Tree) returns (g: Ptr)
      requires At(mem, p, t, x) && t.Node? && p.Step? && p.up.Step? && RedRoot(p.up.sib) && y == p.up.sib.n
      modifies this`mem
      ensures At(mem, p.up.up, Recoloured(p, t), g)
      ensures Same(old(mem), mem, All(p, t))
    {
      hide At;
      Look(mem, p, t, x);
      var par := mem[x].parent;
      PaintParent(par, false, p, t, x);
      Up(mem, p.(red := false), t, x);
      ghost var q, t1 := p.up, Mk(p.d, t, par, false, p.sib);
      Look(mem, q, t1, par);
      g := mem[par].parent;
      PaintSibling(y, false, q, t1, par);
      ghost var q1 := q.(sib := q.sib.(red := false));
      PaintParent(g, true, q1, t1, par);
      Up(mem, q1.(red := true), t1, par);
      LineUp(p, t, false);
    }

    // x on the inner side: rotate its parent outwards and continue with the parent.
    method TurnInner(x: Ptr, d: bool, ghost p: Path, ghost t: Tree) returns (x': Ptr)
      requires At(mem, p, t, x) && RedRoot(t) && p.Step? && p.red && p.up.Step? && d == !p.d
      modifies this`mem
      ensures At(mem, InnerPath(p, t), InnerTree(p, t), x')
      ensures Same(old(mem), mem, All(p, t) + {root}) && (root in mem ==> mem[root].red == old(mem)[root].red)
    {
      hide At;
      Look(mem, p, t, x);
      x' := mem[x].parent;
      Up(mem, p, t, x);
      ghost var t1 := Mk(p.d, t, x', true, p.sib);
      LineUp(p, t, true);
      RotateAt(x', d, p.up, t1);
      Down(mem, p.up, Rotated(t1, d), x, d);
      Look(mem, p.up, Rotated(t1, d), x);
      Look(mem, InnerPath(p, t), InnerTree(p, t), mem[x].Kid(d));
    }

    // x on the outer side: recolour and rotate the grandparent; x stays put.
    method TurnOuter(x: Ptr, d: bool, ghost p: Path, ghost t: Tree)
      requires At(mem, p, t, x) && t.Node? && p.Step? && p.up.Step? && d == p.d == p.up.d
      modifies this`mem
      ensures At(mem, OuterPath(p), t, x)
      ensures Same(old(mem), mem, All(p, t) + {root}) && (root in mem ==> mem[root].red == old(mem)[root].red)
    {
      hide At;
      Look(mem, p, t, x);
      var par := mem[x].parent;
      PaintParent(par, false, p, t, x);
      Up(mem, p.(red := false), t, x);
      ghost var q, t1 := p.up, Mk(p.d, t, par, false, p.sib);
      Look(mem, q, t1, par);
      var g := mem[par].parent;
      PaintParent(g, true, q, t1, par);
      Up(mem, q.(red := true), t1, par);
      ghost var t2 := Mk(q.d, t1, g, true, q.sib);
      LineUp(p, t, false);
      LineUp(q, t1, true);
      RotateAt(g, !d, q.up, t2);
      Down(mem, q.up, Rotated(t2, !d), par, d);
      Look(mem, OuterPath(p), t, mem[par].Kid(d));
    }

    ghost predicate Sentinels(m: Mem) {
      nil in m && root in m && !m[nil].red && !m[root].red
    }

    // The position x is where insertion may have left a red node below a red one.
    ghost predicate Fixing(m: Mem, p: Path, t: Tree, x: Ptr, line: seq<Ptr>, all: set<Ptr>) {
      At(m, p, t, x) && Sentinels(m) && RedDefect(p, t) && Line(p, t) == line && All(p, t) == all
    }

    method InsertFixup(z: Ptr, ghost p0: Path, ghost t0: Tree)
      requires Fixing(mem, p0, t0, z, Line(p0, t0), All(p0, t0))
      modifies this`mem, this`tree
      ensures Sentinels(mem) && At(mem, Top, tree, mem[root].left) && RedBlack(tree)
      ensures Inorder(tree) == Line(p0, t0) && Nodes(tree) == All(p0, t0)
      ensures Same(old(mem), mem, All(p0, t0) + {root})
    {
      hide At;
      ghost var line, all := Line(p0, t0), All(p0, t0);
      var x := z;
      ghost var p, t := p0, t0;
      Look(mem, p, t, x);
      while mem[mem[x].parent].red
        invariant Fixing(mem, p, t, x, line, all)
        invariant x in mem && mem[x].parent == Owner(p) && Owner(p) in mem && mem[Owner(p)].red == (p.Step? && p.red)
        invariant Same(old(mem), mem, all + {root})
        decreases if p.Step? && p.red then 1 + Length(p) else 0
      {
        assert p.up.Step?;
        Up(mem, p, t, x);
        Look(mem, p.up, Mk(p.d, t, p.n, p.red, p.sib), p.n);
        var par := mem[x].parent;
        var g := mem[par].parent;
        var d := par == mem[g].left;
        x, p, t := FixStep(x, d, p, t);
        Look(mem, p, t, x);
      }
      Blacken(x, p, t);
    }

    ghost method Settle(x: Ptr, p: Path, t: Tree)
      requires At(mem, p, t, x) && Sentinels(mem) && Sound(p, t) && (p.Top? ==> !RedRoot(t))
      modifies this`tree
      ensures Sentinels(mem) && At(mem, Top, tree, mem[root].left) && RedBlack(tree)
      ensures Inorder(tree) == Line(p, t) && Nodes(tree) == All(p, t)
    {
      Close(mem, p, t, x);
      tree := Plug(p, t);
      PlugColours(p, t);
      PlugInorder(p, t);
      PlugAll(p, t);
    }

    // tree->root->left->red = 0
    method Blacken(x: Ptr, ghost p: Path, ghost t: Tree)
      requires At(mem, p, t, x) && Sentinels(mem) && t.Node? && Sound(p, t)
      modifies this`mem, this`tree
      ensures Sentinels(mem) && At(mem, Top, tree, mem[root].left) && RedBlack(tree)
      ensures Inorder(tree) == Line(p, t) && Nodes(tree) == All(p, t)
      ensures Same(old(mem), mem, All(p, t) + {root})
    {
      hide At;
      Close(mem, p, t, x);
      ghost var whole := Plug(p, t);
      PlugColours(p, t);
      PlugInorder(p, t);
      PlugAll(p, t);
      Look(mem, Top, whole, mem[root].left);
      Paint(mem[root].left, false, Top, whole);
      PaintFacts(whole, false);
      Settle(mem[root].left, Top, whole.(red := false));
    }

    method FixStep(x: Ptr, d: bool, ghost p: Path, ghost t: Tree) returns (x': Ptr, ghost p': Path, ghost t': Tree)
      requires Fixing(mem, p, t, x, Line(p, t), All(p, t)) && p.Step? && p.red && p.up.Step? && p.up.d == d
      modifies this`mem
      ensures Fixing(mem, p', t', x', Line(p, t), All(p, t))
      ensures Same(old(mem), mem, All(p, t) + {root})
      ensures p'.Step? && p'.red ==> Length(p') < Length(p)
    {
      hide At;
      Look(mem, p, t, x);
      x', p', t' := x, p, t;
      Up(mem, p, t, x);
      Look(mem, p.up, Mk(p.d, t, p.n, p.red, p.sib), p.n);
      var par := mem[x].parent;
      var g := mem[par].parent;
      var y := mem[g].Kid(!d);
      if mem[y].red {
        RecolouredFacts(p, t);
        x' := Recolor(x, y, p, t);
        p', t' := p.up.up, Recoloured(p, t);
      } else {
        if x == mem[par].Kid(!d) {
          InnerFacts(p, t);
          x' := TurnInner(x, d, p, t);
          p', t' := InnerPath(p, t), InnerTree(p, t);
        }
        OuterFacts(p', t');
        TurnOuter(x', d, p', t');
        p' := OuterPath(p');
      }
    }

    // ---- rb_delete_fixup ----

    // The sibling w is red: paint it black and the parent red, rotate it above the parent.
    method Lift(x: Ptr, d: bool, ghost p: Path, ghost t: Tree)
      requires At(mem, p, t, x) && p.Step? && d == p.d && RedRoot(p.sib) && x in mem && mem[x].parent == p.n
      modifies this`mem
      ensures At(mem, LiftedPath(p), t, x)
      ensures Same(old(mem), mem, All(p, t) + {root}) && (root in mem ==> mem[root].red == old(mem)[root].red)
    {
      hide At;
      Look(mem, p, t, x);
      var par := mem[x].parent;
      var w := mem[par].Kid(!d);
      PaintSibling(w, false, p, t, x);
      ghost var p1 := p.(sib := p.sib.(red := false));
      PaintParent(par, true, p1, t, x);
      Up(mem, p1.(red := true), t, x);
      ghost var t1 := Mk(d, t, par, true, p1.sib);
      LineUp(p1, t, true);
      RotateAt(par, d, p.up, t1);
      ghost var t2 := Rotated(t1, d);
      Down(mem, p.up, t2, w, d);
      Look(mem, LiftedPath(p).up, Sub(t2, d), mem[w].Kid(d));
      Down(mem, LiftedPath(p).up, Sub(t2, d), par, d);
      Look(mem, LiftedPath(p), t, mem[par].Kid(d));
    }

    // The sibling w is black with black children: paint it red, x moves to the parent.
    method Shift(x: Ptr, d: bool, ghost p: Path, ghost t: Tree) returns (x': Ptr)
      requires At(mem, p, t, x) && p.Step? && d == p.d && p.sib.Node? && x in mem && mem[x].parent == p.n
      modifies this`mem
      ensures At(mem, p.up, Shifted(p, t), x')
      ensures Same(old(mem), mem, All(p, t)) && x' == p.n
    {
      hide At;
      Look(mem, p, t, x);
      var par := mem[x].parent;
      var w := mem[par].Kid(!d);
      PaintSibling(w, true, p, t, x);
      x' := par;
      Up(mem, p.(sib := p.sib.(red := true)), t, x);
    }

    // Painting the child under link e of the sibling black.
    method PaintNephew(f: Ptr, e: bool, ghost p: Path, ghost t: Tree, ghost x: Ptr)
      requires At(mem, p, t, x) && p.Step? && p.sib.Node? && Sub(p.sib, e).Node? && f == Sub(p.sib, e).n
      modifies this`mem
      ensures At(mem, p.(sib := PaintKid(p.sib, e)), t, x)
      ensures f in old(mem) && mem == old(mem)[f := old(mem[f]).(red := false)] && Same(old(mem), mem, {f})
      ensures All(p.(sib := PaintKid(p.sib, e)), t) == All(p, t) && f in All(p, t)
    {
      hide At;
      ghost var s := p.sib;
      Look(mem, p, t, x);
      Up(mem, p, t, x);
      Down(mem, p.up, Mk(p.d, t, p.n, p.red, s), p.n, !p.d);
      ghost var q, w := Step(!p.d, p.n, p.red, t, p.up), s.n;
      Look(mem, q, s, w);
      Down(mem, q, s, w, !e);
      ghost var far := mem[w].Kid(!e);
      PaintSibling(f, false, Step(!e, w, s.red, Sub(s, e), q), Sub(s, !e), far);
      Up(mem, Step(!e, w, s.red, Sub(s, e).(red := false), q), Sub(s, !e), far);
      Up(mem, q, PaintKid(s, e), w);
      Down(mem, p.up, Mk(p.d, t, p.n, p.red, PaintKid(s, e)), p.n, p.d);
      Look(mem, p.(sib := PaintKid(s, e)), t, mem[p.n].Kid(p.d));
      KidNodes(s, e);
      KidNodes(PaintKid(s, e), e);
    }

    // Rotating at the sibling of a position.
    method RotateSibling(w: Ptr, e: bool, ghost p: Path, ghost t: Tree, ghost x: Ptr)
      requires At(mem, p, t, x) && p.Step? && p.sib.Node? && w == p.sib.n && Sub(p.sib, !e).Node?
      modifies this`mem
      ensures At(mem, p.(sib := Rotated(p.sib, e)), t, x)
      ensures Same(old(mem), mem, All(p, t) + {root}) && (root in mem ==> mem[root].red == old(mem)[root].red)
      ensures All(p.(sib := Rotated(p.sib, e)), t) == All(p, t)
    {
      hide At;
      Look(mem, p, t, x);
      Up(mem, p, t, x);
      ghost var s, t1 := p.sib, Mk(p.d, t, p.n, p.red, p.sib);
      Down(mem, p.up, t1, p.n, !p.d);
      ghost var q := Step(!p.d, p.n, p.red, t, p.up);
      RotateAt(w, e, q, s);
      Up(mem, q, Rotated(s, e), Sub(s, !e).n);
      Down(mem, p.up, Mk(p.d, t, p.n, p.red, Rotated(s, e)), p.n, p.d);
      Look(mem, p.(sib := Rotated(s, e)), t, mem[p.n].Kid(p.d));
      RotatedFacts(s, e);
    }

    // Only the near child of the black sibling w is red: rotate it above w.
    method TurnNear(x: Ptr, d: bool, ghost p: Path, ghost t: Tree)
      requires At(mem, p, t, x) && p.Step? && d == p.d && x in mem && mem[x].parent == p.n
      requires p.sib.Node? && Sub(p.sib, d).Node?
      modifies this`mem
      ensures At(mem, NearPath(p), t, x)
      ensures Same(old(mem), mem, All(p, t) + {root}) && (root in mem ==> mem[root].red == old(mem)[root].red)
    {
      hide At;
      Look(mem, p, t, x);
      LookNephew(mem, p, t, x, d);
      var w := mem[mem[x].parent].Kid(!d);
      PaintNephew(mem[w].Kid(d), d, p, t, x);
      ghost var s1 := PaintKid(p.sib, d);
      ghost var p1 := p.(sib := s1);
      PaintSibling(w, true, p1, t, x);
      RotateSibling(w, !d, p1.(sib := s1.(red := true)), t, x);
    }

    // The far child of the black sibling w is red: rotate w above the parent.
    method Repair(x: Ptr, d: bool, ghost p: Path, ghost t: Tree)
      requires At(mem, p, t, x) && p.Step? && d == p.d && x in mem && mem[x].parent == p.n
      requires p.sib.Node? && Sub(p.sib, !d).Node?
      modifies this`mem
      ensures At(mem, p.up, Repaired(p, t), p.sib.n) && p.n in mem && !mem[p.n].red
      ensures Same(old(mem), mem, All(p, t) + {root}) && (root in mem ==> mem[root].red == old(mem)[root].red)
    {
      hide At;
      ghost var p' := RepairPath(p);
      PaintForRepair(x, d, p, t);
      Up(mem, p', t, x);
      LineUp(p', t, false);
      RotateAt(mem[x].parent, d, p.up, Mk(d, t, p.n, false, p'.sib));
    }

    // The three colours of the last case.
    method PaintForRepair(x: Ptr, d: bool, ghost p: Path, ghost t: Tree)
      requires At(mem, p, t, x) && p.Step? && d == p.d && x in mem && mem[x].parent == p.n
      requires p.sib.Node? && Sub(p.sib, !d).Node?
      modifies this`mem
      ensures At(mem, RepairPath(p), t, x) && All(RepairPath(p), t) == All(p, t)
      ensures x in mem && mem[x].parent == p.n && p.n in mem && !mem[p.n].red
      ensures Same(old(mem), mem, All(p, t)) && (root in mem ==> mem[root].red == old(mem)[root].red)
    {
      hide At;
      Look(mem, p, t, x);
      LookNephew(mem, p, t, x, !d);
      var par := mem[x].parent;
      var w := mem[par].Kid(!d);
      PaintSibling(w, mem[par].red, p, t, x);
      ghost var p1 := p.(sib := p.sib.(red := p.red));
      PaintParent(par, false, p1, t, x);
      ghost var p2 := p1.(red := false);
      PaintNephew(mem[w].Kid(!d), !d, p2, t, x);
      Look(mem, RepairPath(p), t, x);
    }

    // The topmost node of the tree is black.
    lemma HeadBlack(m: Mem, p: Path, t: Tree, x: Ptr, c: bool)
      requires At(m, p, t, x) && PathNoRedRed(p, c) && p.Step?
      ensures Head(p, x) in m && !m[Head(p, x)].red && Head(p, x) in PathNodes(p)
      decreases p
    {
      if p.up.Step? {
        Up(m, p, t, x);
        HeadBlack(m, p.up, Mk(p.d, t, p.n, p.red, p.sib), p.n, p.red);
      }
    }

    // The position x is one black node short.
    ghost predicate Short(m: Mem, p: Path, t: Tree, x: Ptr, line: seq<Ptr>, all: set<Ptr>) {
      && At(m, p, t, x) && Sentinels(m) && Deficit(p, t) && Line(p, t) == line && All(p, t) == all
      && x in m && m[x].parent == Owner(p)
    }

    // The whole tree is in order again.
    ghost predicate Mended(m: Mem, p: Path, t: Tree, line: seq<Ptr>, all: set<Ptr>) {
      && t.Node? && At(m, p, t, t.n) && Sentinels(m) && Sound(p, t) && (p.Top? ==> !t.red)
      && Line(p, t) == line && All(p, t) == all
    }

    // What one round knows of the path p': it is p, or p with the red sibling lifted.
    ghost predicate MaybeLifted(p: Path, p': Path) {
      p.Step? && (p' == p || (p.sib.Node? && p' == LiftedPath(p)))
    }

    method LiftIfRed(x: Ptr, d: bool, ghost p: Path, ghost t: Tree) returns (w: Ptr, ghost p': Path)
      requires Short(mem, p, t, x, Line(p, t), All(p, t)) && p.Step? && !RedRoot(t) && d == p.d
      modifies this`mem
      ensures Same(old(mem), mem, All(p, t) + {root})
      ensures Short(mem, p', t, x, Line(p, t), All(p, t)) && MaybeLifted(p, p') && (p' != p ==> p'.red)
      ensures p'.sib.Node? && !p'.sib.red && w == p'.sib.n
    {
      hide At;
      Look(mem, p, t, x);
      p' := p;
      w := mem[mem[x].parent].Kid(!d);
      if mem[w].red {
        LiftedFacts(p, t);
        Lift(x, d, p, t);
        p' := LiftedPath(p);
        Look(mem, p', t, x);
        w := mem[mem[x].parent].Kid(!d);
      }
    }

    // Cases 3 and 4, after which the loop ends with x = root.
    method Mend(x: Ptr, w: Ptr, d: bool, ghost p: Path, ghost t: Tree)
      requires Short(mem, p, t, x, Line(p, t), All(p, t)) && p.Step? && !RedRoot(t) && d == p.d
      requires p.sib.Node? && !p.sib.red && w == p.sib.n && (RedRoot(p.sib.l) || RedRoot(p.sib.r))
      modifies this`mem
      ensures Same(old(mem), mem, All(p, t) + {root})
      ensures exists t' :: Mended(mem, p.up, t', Line(p, t), All(p, t))
      ensures p.n in mem && !mem[p.n].red
    {
      hide At;
      Look(mem, p, t, x);
      LookNephew(mem, p, t, x, !d);
      ghost var p' := p;
      if !mem[mem[w].Kid(!d)].red {
        NearFacts(p, t);
        TurnNear(x, d, p, t);
        p' := NearPath(p);
        Look(mem, p', t, x);
      }
      RepairedFacts(p', t);
      Repair(x, d, p', t);
      Look(mem, p'.up, Repaired(p', t), p'.sib.n);
      assert Mended(mem, p.up, Repaired(p', t), Line(p, t), All(p, t));
    }

    lemma OldRootBlack(m: Mem, p: Path, p': Path, t: Tree, x: Ptr, line: seq<Ptr>, all: set<Ptr>)
      requires MaybeLifted(p, p') && Mended(m, p'.up, t, line, all) && p.n in m && !m[p.n].red && p.n in all
      ensures Head(p, x) in m && !m[Head(p, x)].red && Head(p, x) in all
    {
      if p.up.Step? {
        HeadBlack(m, p'.up, t, t.n, RedRoot(t));
      }
    }

    method DeleteStep(x: Ptr, d: bool, root0: Ptr, ghost p: Path, ghost t: Tree)
      returns (x': Ptr, ghost p': Path, ghost t': Tree, ghost done: bool)
      requires Short(mem, p, t, x, Line(p, t), All(p, t)) && p.Step? && !RedRoot(t) && d == p.d && Head(p, x) == root0
      modifies this`mem
      ensures Same(old(mem), mem, All(p, t) + {root})
      ensures !done ==>
        && Short(mem, p', t', x', Line(p, t), All(p, t))
        && (RedRoot(t') || (Head(p', x') == root0 && Length(p') < Length(p)))
      ensures done ==>
        && Mended(mem, p', t', Line(p, t), All(p, t))
        && x' == root0 && root0 in mem && !mem[root0].red && root0 in All(p, t)
    {
      hide *;
      var w;
      ghost var p1;
      w, p1 := LiftIfRed(x, d, p, t);
      ghost var m1 := mem;
      LiftedFits(mem, p, p1, t, x, w);
      if !mem[mem[w].left].red && !mem[mem[w].right].red {
        done := false;
        x', p', t' := ShiftRound(x, d, root0, p, p1, t);
      } else {
        done := true;
        p', t' := MendRound(x, w, d, root0, p, p1, t);
        x' := root0;
      }
      SameThrough(old(mem), m1, mem, All(p, t) + {root});
    }

    lemma SameThrough(m: Mem, m1: Mem, m': Mem, but: set<Ptr>)
      requires Same(m, m1, but) && Same(m1, m', but)
      ensures Same(m, m', but)
    {
    }

    // Reading the nephews of the path p' after LiftIfRed.
    lemma LiftedFits(m: Mem, p: Path, p': Path, t: Tree, x: Ptr, w: Ptr)
      requires MaybeLifted(p, p') && p'.sib.Node? && w == p'.sib.n && Short(m, p', t, x, Line(p, t), All(p, t))
      ensures p'.Step? && p'.d == p.d && w in m && m[w].left in m && m[w].right in m
      ensures m[m[w].left].red == RedRoot(p'.sib.l) && m[m[w].right].red == RedRoot(p'.sib.r)
    {
      hide At;
      LookNephew(m, p', t, x, true);
      LookNephew(m, p', t, x, false);
    }

    // The round that moves the deficit to the parent.
    method ShiftRound(x: Ptr, d: bool, root0: Ptr, ghost p: Path, ghost p1: Path, ghost t: Tree)
      returns (x': Ptr, ghost p': Path, ghost t': Tree)
      requires Short(mem, p1, t, x, Line(p, t), All(p, t)) && MaybeLifted(p, p1) && (p1 != p ==> p1.red)
      requires p1.Step? && d == p1.d && !RedRoot(t) && Head(p, x) == root0 && p1.sib.Node? && !p1.sib.red
      requires !RedRoot(p1.sib.l) && !RedRoot(p1.sib.r)
      modifies this`mem
      ensures Same(old(mem), mem, All(p, t) + {root}) && Short(mem, p', t', x', Line(p, t), All(p, t))
      ensures RedRoot(t') || (Head(p', x') == root0 && Length(p') < Length(p))
    {
      hide At;
      ShiftedFacts(p1, t);
      x' := Shift(x, d, p1, t);
      p', t' := p1.up, Shifted(p1, t);
      Look(mem, p', t', x');
    }

    // The round that ends the deficit.
    method MendRound(x: Ptr, w: Ptr, d: bool, root0: Ptr, ghost p: Path, ghost p1: Path, ghost t: Tree)
      returns (ghost p': Path, ghost t': Tree)
      requires Short(mem, p1, t, x, Line(p, t), All(p, t)) && MaybeLifted(p, p1)
      requires p1.Step? && d == p1.d && !RedRoot(t) && Head(p, x) == root0 && p1.sib.Node? && !p1.sib.red &&
        w == p1.sib.n
      requires RedRoot(p1.sib.l) || RedRoot(p1.sib.r)
      modifies this`mem
      ensures Same(old(mem), mem, All(p, t) + {root}) && Mended(mem, p', t', Line(p, t), All(p, t))
      ensures root0 in mem && !mem[root0].red && root0 in All(p, t)
    {
      hide At;
      assert Line(p1, t) == Line(p, t) && All(p1, t) == All(p, t);
      assert p.n in All(p, t);
      hide *;
      p' := p1.up;
      Mend(x, w, d, p1, t);
      t' :| Mended(mem, p', t', Line(p, t), All(p, t));
      OldRootBlack(mem, p, p1, t', x, Line(p, t), All(p, t));
    }

    lemma HeadIs(m: Mem, p: Path, t: Tree, x: Ptr)
      requires At(m, p, t, x)
      ensures root in m && m[root].left == Head(p, x)
      ensures p.Step? ==> Head(p, x) in PathNodes(p)
      decreases p
    {
      if p.Step? {
        Up(m, p, t, x);
        HeadIs(m, p.up, Mk(p.d, t, p.n, p.red, p.sib), p.n);
      }
    }

    method DeleteFixup(node: Ptr, ghost p0: Path, ghost t0: Tree)
      requires Short(mem, p0, t0, node, Line(p0, t0), All(p0, t0))
      modifies this`mem, this`tree
      ensures Sentinels(mem) && At(mem, Top, tree, mem[root].left) && RedBlack(tree)
      ensures Inorder(tree) == Line(p0, t0) && Nodes(tree) == All(p0, t0)
      ensures Same(old(mem), mem, All(p0, t0) + {root})
    {
      hide At;
      ghost var line, all := Line(p0, t0), All(p0, t0);
      var x, root0 := node, mem[root].left;
      ghost var p, t, done := p0, t0, false;
      HeadIs(mem, p, t, x);
      while x != root0 && !mem[x].red
        invariant Sentinels(mem) && x in mem && Same(old(mem), mem, all + {root})
        invariant !done ==> Short(mem, p, t, x, line, all) && (RedRoot(t) || Head(p, x) == root0)
        invariant done ==> Mended(mem, p, t, line, all) && x == root0 && !mem[x].red && x in all
        decreases if done || RedRoot(t) then 0 else 1 + Length(p)
      {
        Look(mem, p, t, x);
        var d := x == mem[mem[x].parent].left;
        BlackHeightPositive(t);
        assert p.sib.Node? && p.sib.n in All(p, t);
        x, p, t, done := DeleteStep(x, d, root0, p, t);
      }
      if !done {
        Look(mem, p, t, x);
        HeadIs(mem, p, t, x);
      }
      PaintLast(x, p, t, done, line, all);
    }

    // x->red = 0 after the loop: it repairs the short position, or does nothing when the
    // loop ended with x at the old root.
    method PaintLast(x: Ptr, ghost p: Path, ghost t: Tree, ghost done: bool, ghost line: seq<Ptr>, ghost all: set<Ptr>)
      requires !done ==> Short(mem, p, t, x, line, all) && (p.Step? ==> RedRoot(t) || Head(p, x) in PathNodes(p))
      requires !done ==> RedRoot(t) || Head(p, x) == x
      requires done ==> Mended(mem, p, t, line, all) && x in mem && !mem[x].red
      modifies this`mem, this`tree
      ensures Sentinels(mem) && At(mem, Top, tree, mem[root].left) && RedBlack(tree)
      ensures Inorder(tree) == line && Nodes(tree) == all
      ensures Same(old(mem), mem, all)
    {
      hide At;
      if !done { Look(mem, p, t, x); }
      if !done && t.Node? {
        PaintedAt(mem, p, t, x, false);
        PaintFacts(t, false);
      }
      mem := mem[x := mem[x].(red := false)];
      if !done && t.Node? {
        Settle(x, p, t.(red := false));
      } else {
        assert mem == old(mem);
        Settle(if t.Node? then t.n else nil, p, t);
      }
    }

    // ---- rb_delete ----

    lemma UpAll(m: Mem, q: Path, p: Path, t: Tree, x: Ptr)
      requires At(m, Concat(q, p), t, x)
      ensures At(m, p, Plug(q, t), Head(q, x))
      decreases q
    {
      if q.Step? {
        Up(m, Concat(q, p), t, x);
        UpAll(m, q.up, p, Mk(q.d, t, q.n, q.red, q.sib), q.n);
      }
    }

    lemma DownAll(m: Mem, q: Path, p: Path, t: Tree, x: Ptr) returns (y: Ptr)
      requires At(m, p, Plug(q, t), x)
      ensures At(m, Concat(q, p), t, y)
      decreases q
    {
      y := x;
      if q.Step? {
        var t1 := Mk(q.d, t, q.n, q.red, q.sib);
        y := DownAll(m, q.up, p, t1, x);
        Down(m, Concat(q.up, p), t1, y, q.d);
        y := m[y].Kid(q.d);
      }
    }

    // The position of a node of the tree.
    lemma Locate(m: Mem, p: Path, t: Tree, x: Ptr, z: Ptr) returns (p': Path, t': Tree)
      requires At(m, p, t, x) && z in Nodes(t)
      ensures At(m, p', t', z) && t'.Node? && Plug(p', t') == Plug(p, t)
      decreases t
    {
      if z == t.n {
        p', t' := p, t;
      } else {
        var d := z in Nodes(t.l);
        Down(m, p, t, x, d);
        p', t' := Locate(m, Step(d, x, t.red, Sub(t, !d), p), Sub(t, d), m[x].Kid(d), z);
      }
    }

    // The leftmost (e) or rightmost node below y0, and the path of links to it.
    method Outermost(y0: Ptr, e: bool, ghost p: Path, ghost t: Tree) returns (y: Ptr, ghost q: Path, ghost u: Tree)
      requires At(mem, p, t, y0) && t.Node?
      ensures At(mem, Concat(q, p), u, y) && u.Node? && Sub(u, e).Leaf? && Plug(q, u) == t && Spine(q, e)
    {
      hide At;
      y := y0;
      q, u := Top, t;
      LookKids(mem, p, t, y);
      while mem[y].Kid(e) != nil
        invariant At(mem, Concat(q, p), u, y) && u.Node? && Plug(q, u) == t && Spine(q, e)
        invariant y == u.n && y in mem && (mem[y].Kid(e) == nil <==> Sub(u, e).Leaf?)
        decreases u
      {
        Down(mem, Concat(q, p), u, y, e);
        y := mem[y].Kid(e);
        q, u := Step(e, u.n, u.red, Sub(u, !e), q), Sub(u, e);
        LookKids(mem, Concat(q, p), u, y);
      }
    }

    ghost predicate SameColours(m: Mem, m': Mem) {
      m'.Keys == m.Keys && forall n :: n in m ==> m'[n].red == m[n].red
    }

    // Linking the only child of y, or nil, in the place of y.
    method Splice(y: Ptr, ghost p: Path, ghost t: Tree) returns (x: Ptr)
      requires At(mem, p, t, y) && t.Node? && (t.l.Leaf? || t.r.Leaf?) && nil in mem
      modifies this`mem
      ensures At(mem, p, OnlyKid(t), x) && x in mem && mem[x].parent == Owner(p)
      ensures y in mem && mem[y] == old(mem)[y] && SameColours(old(mem), mem)
      ensures Same(old(mem), mem, All(p, t) + {root, nil})
    {
      ghost var m := mem;
      SpliceFacts(mem, p, t, y);
      hide *;
      x := if mem[y].left != nil then mem[y].left else mem[y].right;
      var par := mem[y].parent;
      mem := mem[x := mem[x].(parent := par)];
      ghost var m1 := mem;
      Hoisted(m, m1, p, t, y, x, par);
      PointTo(par, y, x, p, OnlyKid(t));
      SplicedSame(m, m1, mem, p, t, y, x, par);
    }

    // The child of y that takes its place, or nil.
    ghost function OnlyKidAt(m: Mem, y: Ptr): Ptr
      requires y in m
    {
      if m[y].left != nil then m[y].left else m[y].right
    }

    lemma SpliceFacts(m: Mem, p: Path, t: Tree, y: Ptr)
      requires At(m, p, t, y) && t.Node? && (t.l.Leaf? || t.r.Leaf?) && nil in m
      ensures y in m && m[y].parent == Owner(p) && Owner(p) in m && OnlyKidAt(m, y) in m
      ensures OnlyKidAt(m, y) == if m[y].left != nil then m[y].left else m[y].right
      ensures OnlyKidAt(m, y) != y && OnlyKidAt(m, y) != Owner(p) && y != Owner(p)
      ensures y in Nodes(t) && (OnlyKidAt(m, y) in Nodes(t) || OnlyKidAt(m, y) == nil)
      ensures Owner(p) in PathNodes(p) || Owner(p) == root
      ensures Shape(m, OnlyKid(t), OnlyKidAt(m, y), y) && Whole(p, OnlyKid(t)) && nil !in All(p, t) && nil != root
    {
      KidFacts(t, true);
      WhichKid(m, p, t, y);
      KidShape(m, t, y, Owner(p), true);
      KidShape(m, t, y, Owner(p), false);
    }

    lemma Hoisted(m: Mem, m': Mem, p: Path, t: Tree, y: Ptr, x: Ptr, par: Ptr)
      requires At(m, p, t, y) && t.Node? && (t.l.Leaf? || t.r.Leaf?) && nil in m && y in m && x == OnlyKidAt(m, y)
      requires x in m && m' == m[x := m[x].(parent := par)] && par == Owner(p)
      ensures PathShape(m', p, y) && Shape(m', OnlyKid(t), x, par) && Whole(p, OnlyKid(t)) && par in m'
      ensures var d := p.Step? ==> p.d; m'[par].Kid(d) == y && m'[par].Kid(!d) != y
    {
      SpliceFacts(m, p, t, y);
      WhichKid(m, p, t, y);
      assert Distinct(OnlyKid(t));
      hide Distinct, PathDistinct, Nodes, PathNodes;
      Reparent(m, m', OnlyKid(t), x, y, par);
      PathFrame(m, m', p, y);
    }

    lemma SplicedSame(m: Mem, m1: Mem, m': Mem, p: Path, t: Tree, y: Ptr, x: Ptr, par: Ptr)
      requires At(m, p, t, y) && t.Node? && (t.l.Leaf? || t.r.Leaf?) && nil in m && y in m && x == OnlyKidAt(m, y)
      requires x in m && m1 == m[x := m[x].(parent := par)] && par == Owner(p)
      requires SameColours(m1, m') && Same(m1, m', {par}) && forall n :: n in m1 ==>
        n in m' && m'[n].parent == m1[n].parent
      ensures y in m' && m'[y] == m[y] && x in m' && m'[x].parent == par && SameColours(m, m')
      ensures Same(m, m', All(p, t) + {root, nil})
    {
      SpliceFacts(m, p, t, y);
      hide At, Whole, Shape, Nodes, PathNodes;
    }

    // The link of the parent that pointed to y points to x.
    method PointTo(par: Ptr, y: Ptr, x: Ptr, ghost p: Path, ghost u: Tree)
      requires par == Owner(p) && par in mem && PathShape(mem, p, y) && Shape(mem, u, x, par) && Whole(p, u)
      requires var d := p.Step? ==> p.d; mem[par].Kid(d) == y && mem[par].Kid(!d) != y
      modifies this`mem
      ensures At(mem, p, u, x) && SameColours(old(mem), mem) && Same(old(mem), mem, {par})
      ensures forall n :: n in old(mem) ==> n in mem && mem[n].parent == old(mem)[n].parent
    {
      ghost var m := mem;
      if y == mem[par].left {
        mem := mem[par := mem[par].(left := x)];
      } else {
        mem := mem[par := mem[par].(right := x)];
      }
      Frame(m, mem, u, x, par);
      Rehang(m, mem, p, y, x);
    }

    // What the relinking of y in the place of z does to the structs it touches.
    ghost predicate Replacing(m: Mem, m': Mem, z: Ptr, y: Ptr, par: Ptr, l: Ptr, r: Ptr) {
      && par in m && l in m && r in m && z in m && m'.Keys == m.Keys + {y}
      && m'[par] == (if m[par].left == z then m[par].(left := y) else m[par].(right := y))
      && m'[l] == m[l].(parent := y) && m'[r] == m[r].(parent := y)
      && m'[y] == m[z]
      && forall n :: n in m && n !in {par, l, r, y} ==> m'[n] == m[n]
    }

    // y, whose struct is free, takes over the links and the colour of z.
    method Relink(z: Ptr, y: Ptr)
      requires z in mem && mem[z].parent in mem && mem[z].left in mem && mem[z].right in mem
      requires var par, l, r := mem[z].parent, mem[z].left, mem[z].right;
               && par != l && par != r && l != r && z != par && z != l && z != r && y != par && y != l && y != r
      modifies this`mem
      ensures Replacing(old(mem), mem, z, y, old(mem[z].parent), old(mem[z].left), old(mem[z].right))
    {
      var par := mem[z].parent;
      if z == mem[par].left {
        mem := mem[par := mem[par].(left := y)];
      } else {
        mem := mem[par := mem[par].(right := y)];
      }
      var l, r := mem[z].left, mem[z].right;
      mem := mem[r := mem[r].(parent := y)];
      mem := mem[l := mem[l].(parent := y)];
      mem := mem[y := mem[z]];
    }

    method Replace(z: Ptr, y: Ptr, ghost p: Path, ghost t: Tree)
      requires At(mem, p, t, z) && t.Node? && t.l.Node? && nil in mem && root in mem
      requires y in mem && y != nil && y != root && y !in All(p, t)
      modifies this`mem
      ensures At(mem, p, t.(n := y), y)
      ensures Same(old(mem), mem, All(p, t) + {root, nil, y})
      ensures nil in mem && mem[nil] == (if t.r.Leaf? then old(mem)[nil].(parent := y) else old(mem)[nil])
      ensures root in mem && mem[root].red == old(mem)[root].red
    {
      ghost var m := mem;
      KidFacts(t, true);
      WhichKid(m, p, t, z);
      KidShape(m, t, z, Owner(p), true);
      KidShape(m, t, z, Owner(p), false);
      Relink(z, y);
      ReplacedShape(m, mem, z, y, p, t);
    }

    lemma ReplacedShape(m: Mem, m': Mem, z: Ptr, y: Ptr, p: Path, t: Tree)
      requires At(m, p, t, z) && t.Node? && t.l.Node? && y != nil && y != root && y !in All(p, t)
      requires z in m && Replacing(m, m', z, y, m[z].parent, m[z].left, m[z].right)
      ensures At(m', p, t.(n := y), y)
    {
      KidFacts(t, true);
      WhichKid(m, p, t, z);
      KidShape(m, t, z, Owner(p), true);
      KidShape(m, t, z, Owner(p), false);
      Reparent(m, m', t.l, m[z].left, z, y);
      Reparent(m, m', t.r, m[z].right, z, y);
      Rehang(m, m', p, z, y);
    }

    // The successor y, spliced out from below the right link of z, put in the place of z.
    method SwapIn(z: Ptr, y: Ptr, ghost x: Ptr, ghost q: Path, ghost p: Path, ghost t: Tree, ghost k: Tree)
      requires t.Node? && t.l.Node? && At(mem, Below(q, p, t, z), k, x)
      requires x in mem && mem[x].parent == Owner(Below(q, p, t, z)) && Sentinels(mem)
      requires y in mem && y != nil && y != root && y !in All(Below(q, p, t, z), k)
      modifies this`mem
      ensures At(mem, Below(q, p, t, y), k, x)
      ensures x in mem && mem[x].parent == Owner(Below(q, p, t, y)) && Sentinels(mem)
      ensures Same(old(mem), mem, All(Below(q, p, t, z), k) + {root, nil, y})
    {
      hide At;
      ghost var p1 := Step(false, z, t.red, t.l, p);
      ConcatFacts(q, p1, k);
      Look(mem, Below(q, p, t, z), k, x);
      UpAll(mem, q, p1, k, x);
      Up(mem, p1, Plug(q, k), Head(q, x));
      ghost var t1 := Node(t.l, z, t.red, Plug(q, k));
      LineUp(p1, Plug(q, k), t.red);
      Replace(z, y, p, t1);
      ghost var t2 := t1.(n := y);
      PlugAll(q, k);
      LookKids(mem, p, t2, y);
      Down(mem, p, t2, y, false);
      ghost var x' := DownAll(mem, q, p1.(n := y), k, mem[y].right);
      Look(mem, Below(q, p, t, y), k, x');
    }

    // The position left behind when z is out: short of a black node when need is set.
    ghost predicate Unlinked(m: Mem, p: Path, t: Tree, x: Ptr, need: bool) {
      && At(m, p, t, x) && Sentinels(m) && x in m && m[x].parent == Owner(p)
      && (if need then Deficit(p, t) else Sound(p, t) && !RedRoot(t))
    }

    lemma OuterNodes(m: Mem, p: Path, t: Tree, z: Ptr)
      requires At(m, p, t, z) && t.Node? && (t.l.Leaf? || t.r.Leaf?)
      ensures All(p, OnlyKid(t)) == All(p, t) - {z}
    {
      KidFacts(t, true);
    }

    lemma InnerNodes(m: Mem, q: Path, p: Path, t: Tree, u: Tree, z: Ptr)
      requires At(m, p, t, z) && t.Node? && u.Node? && u.l.Leaf? && t.r == Plug(q, u)
      ensures All(Below(q, p, t, u.n), u.r) == All(p, t) - {z}
    {
      KidFacts(t, true);
      PlugAll(q, u);
      ConcatFacts(q, Step(false, u.n, t.red, t.l, p), u.r);
      PlugAll(q, u.r);
    }

    // y = z: z has at most one child.
    method UnlinkOuter(z: Ptr, ghost p: Path, ghost t: Tree) returns (x: Ptr, need: bool)
      requires At(mem, p, t, z) && t.Node? && (t.l.Leaf? || t.r.Leaf?) && Sentinels(mem) && Sound(p, t)
      modifies this`mem
      ensures Unlinked(mem, p, OnlyKid(t), x, need)
      ensures Same(old(mem), mem, All(p, t) + {root, nil})
    {
      hide At;
      Look(mem, p, t, z);
      x := Splice(z, p, t);
      need := !mem[z].red;
      OnlyKidFacts(p, t);
    }

    // y is the successor of z, which has two children.
    method UnlinkInner(z: Ptr, ghost p: Path, ghost t: Tree) returns (x: Ptr, need: bool, ghost q: Path, ghost u: Tree)
      requires At(mem, p, t, z) && t.Node? && t.l.Node? && t.r.Node? && Sentinels(mem) && RedBlack(Plug(p, t))
      modifies this`mem
      ensures u.Node? && u.l.Leaf? && Spine(q, true) && t.r == Plug(q, u)
      ensures Unlinked(mem, Below(q, p, t, u.n), u.r, x, need)
      ensures Same(old(mem), mem, All(p, t) + {root, nil})
    {
      hide At;
      var y;
      LookKids(mem, p, t, z);
      Down(mem, p, t, z, false);
      y, q, u := Outermost(mem[z].right, true, Step(false, z, t.red, t.l, p), t.r);
      ghost var py := Below(q, p, t, z);
      BelowLine(q, p, t, u);
      ConcatFacts(q, Step(false, z, t.red, t.l, p), u);
      UnplugColours(py, u);
      OnlyKidFacts(py, u);
      Look(mem, py, u, y);
      NotBelow(mem, py, u, y);
      x := Splice(y, py, u);
      need := !mem[y].red;
      SwapIn(z, y, x, q, p, t, u.r);
      ConcatRenamed(q, Step(false, z, t.red, t.l, p), y, if need then BlackHeight(u.r) + 1
        else BlackHeight(u.r), false);
    }

    lemma NotBelow(m: Mem, p: Path, t: Tree, y: Ptr)
      requires At(m, p, t, y) && t.Node? && t.l.Leaf?
      ensures y !in All(p, t.r) && All(p, t.r) <= All(p, t) && y in All(p, t)
    {
    }

    lemma SortedWithout(s: seq<Ptr>, k: nat)
      requires k < |s| && Sorted(s)
      ensures Sorted(Without(s, k))
    {
      var w := Without(s, k);
      forall i, j | 0 <= i < j < |w| ensures Cmp(compare, w[i], w[j]) <= 0 {
        assert w[i] == s[if i < k then i else i + 1];
        assert w[j] == s[if j < k then j else j + 1];
      }
    }

    lemma SortedWith(a: seq<Ptr>, z: Ptr, b: seq<Ptr>)
      requires IsPreorder(compare) && Sorted(a + b) && AllLe(a, z) && AllGt(b, z)
      ensures Sorted(a + [z] + b)
    {
      var w, s := a + [z] + b, a + b;
      forall i, j | 0 <= i < j < |w| ensures Cmp(compare, w[i], w[j]) <= 0 {
        if i != |a| && j != |a| {
          assert w[i] == s[if i < |a| then i else i - 1];
          assert w[j] == s[if j < |a| then j else j - 1];
        }
      }
    }

    // rb_insert: z lands after every node comparing less or equal, before every greater one.
    method Insert(z: Ptr) returns (ghost k: nat)
      requires Valid() && z in mem && z != nil && z != root && z !in Nodes(tree)
      modifies this`mem, this`tree
      ensures Valid()
      ensures k <= |old(Inorder(tree))|
      ensures Inorder(tree) == old(Inorder(tree))[..k] + [z] + old(Inorder(tree))[k..]
      ensures AllLe(old(Inorder(tree))[..k], z) && AllGt(old(Inorder(tree))[k..], z)
      ensures Nodes(tree) == old(Nodes(tree)) + {z}
      ensures Same(old(mem), mem, old(Nodes(tree)) + {root, z})
    {
      ghost var s := Inorder(tree);
      ghost var p;
      InOrderNow();
      hide *;
      k, p := InsertRed(z);
      InsertFixup(z, p, RedLeaf(z));
      InsertedValid(s, k, z);
    }

    lemma InOrderNow()
      requires Valid()
      ensures IsPreorder(compare) && Sorted(Inorder(tree))
    {
    }

    lemma InsertedValid(s: seq<Ptr>, k: nat, z: Ptr)
      requires IsPreorder(compare) && Sorted(s) && k <= |s| && AllLe(s[..k], z) && AllGt(s[k..], z)
      requires Sentinels(mem) && At(mem, Top, tree, mem[root].left) && RedBlack(tree)
      requires Inorder(tree) == s[..k] + [z] + s[k..]
      ensures Valid()
    {
      assert s[..k] + s[k..] == s;
      hide At, IsPreorder, Sorted, AllLe, AllGt;
      SortedWith(s[..k], z, s[k..]);
    }

    // The new node hung in and painted red.
    method InsertRed(z: Ptr) returns (ghost k: nat, ghost p: Path)
      requires Valid() && z in mem && z != nil && z != root && z !in Nodes(tree)
      modifies this`mem
      ensures Fixing(mem, p, RedLeaf(z), z, Line(p, RedLeaf(z)), All(p, RedLeaf(z)))
      ensures k <= |Inorder(tree)| && AllLe(Inorder(tree)[..k], z) && AllGt(Inorder(tree)[k..], z)
      ensures Line(p, RedLeaf(z)) == Inorder(tree)[..k] + [z] + Inorder(tree)[k..]
      ensures All(p, RedLeaf(z)) == Nodes(tree) + {z} && Same(old(mem), mem, Nodes(tree) + {root, z})
    {
      hide At, IsPreorder;
      p := InsertBinary(z);
      k := HungIn(p, z);
      UnplugColours(p, Leaf);
      ghost var t := Node(Leaf, z, mem[z].red, Leaf);
      Paint(z, true, p, t);
    }

    lemma HungIn(p: Path, z: Ptr) returns (k: nat)
      requires Plug(p, Leaf) == tree && Fits(p, z)
      ensures k <= |Inorder(tree)| && AllLe(Inorder(tree)[..k], z) && AllGt(Inorder(tree)[k..], z)
      ensures Line(p, RedLeaf(z)) == Inorder(tree)[..k] + [z] + Inorder(tree)[k..]
      ensures All(p, RedLeaf(z)) == Nodes(tree) + {z}
    {
      PlugInorder(p, Leaf);
      PlugAll(p, Leaf);
      k := |Before(p)|;
      assert Inorder(tree)[..k] == Before(p) && Inorder(tree)[k..] == After(p);
      assert Inorder(RedLeaf(z)) == [z] && Nodes(RedLeaf(z)) == {z};
    }

    // rb_delete: exactly the node z leaves the order.
    method Delete(z: Ptr) returns (ghost k: nat)
      requires Valid() && z in Nodes(tree)
      modifies this`mem, this`tree
      ensures Valid()
      ensures k < |old(Inorder(tree))| && old(Inorder(tree))[k] == z
      ensures Inorder(tree) == Without(old(Inorder(tree)), k)
      ensures Nodes(tree) == old(Nodes(tree)) - {z}
      ensures Same(old(mem), mem, old(Nodes(tree)) + {root, nil})
    {
      hide At;
      ghost var s := Inorder(tree);
      ghost var p, t := Locate(mem, Top, tree, mem[root].left, z);
      PlugInorder(p, t);
      PlugAll(p, t);
      UnplugColours(p, t);
      k := Rank(p, t);
      RankFacts(p, t);
      LookKids(mem, p, t, z);
      SortedWithout(s, k);
      var x, need;
      ghost var p', t';
      if mem[z].left == nil || mem[z].right == nil {
        OuterNodes(mem, p, t, z);
        OuterLineWithout(p, t);
        x, need := UnlinkOuter(z, p, t);
        p', t' := p, OnlyKid(t);
      } else {
        ghost var q, u;
        ghost var m := mem;
        x, need, q, u := UnlinkInner(z, p, t);
        InnerNodes(m, q, p, t, u, z);
        BelowLine(q, p, t, u);
        InnerLineWithout(q, p, t, u);
        p', t' := Below(q, p, t, u.n), u.r;
      }
      if need {
        DeleteFixup(x, p', t');
      } else {
        Settle(x, p', t');
      }
    }

    // ---- walking, searching and checking ----

    // rb_tree_successor; nil when z is the last node.
    method Successor(z: Ptr) returns (y: Ptr)
      requires Valid() && z in Nodes(tree)
      ensures Behind(Inorder(tree), z, y, nil)
    {
      hide *;
      ghost var p, t := Find(z);
      if mem[z].right != nil {
        y := Leftmost(z, p, t);
      } else {
        y := ClimbRight(z, p, t);
        RankLast(p, t);
      }
      FoundBehind(p, t, z, y);
    }

    lemma Find(z: Ptr) returns (p: Path, t: Tree)
      requires Valid() && z in Nodes(tree)
      ensures At(mem, p, t, z) && t.Node? && t.n == z && Plug(p, t) == tree && z in mem
      ensures (mem[z].left == nil <==> t.l.Leaf?) && (mem[z].right == nil <==> t.r.Leaf?)
    {
      hide At;
      p, t := Locate(mem, Top, tree, mem[root].left, z);
      LookKids(mem, p, t, z);
    }

    lemma FoundBehind(p: Path, t: Tree, z: Ptr, y: Ptr)
      requires Valid() && t.Node? && t.n == z && Plug(p, t) == tree
      requires y == if Rank(p, t) + 1 < |Line(p, t)| then Line(p, t)[Rank(p, t) + 1] else nil
      ensures Behind(Inorder(tree), z, y, nil)
    {
      PlugInorder(p, t);
      RankFacts(p, t);
      hide *;
      LineIs(p, t);
      OnlyPlace(Rank(p, t));
      IsBehind(Inorder(tree), z, y, nil, Rank(p, t));
    }

    lemma FoundAhead(p: Path, t: Tree, z: Ptr, y: Ptr)
      requires Valid() && t.Node? && t.n == z && Plug(p, t) == tree
      requires Rank(p, t) <= |Line(p, t)| && y == if Rank(p, t) > 0 then Line(p, t)[Rank(p, t) - 1] else nil
      ensures Ahead(Inorder(tree), z, y, nil)
    {
      PlugInorder(p, t);
      RankFacts(p, t);
      hide *;
      LineIs(p, t);
      OnlyPlace(Rank(p, t));
      IsAhead(Inorder(tree), z, y, nil, Rank(p, t));
    }

    // Down to the first node right of z.
    method Leftmost(z: Ptr, ghost p: Path, ghost t: Tree) returns (y: Ptr)
      requires At(mem, p, t, z) && t.Node? && t.r.Node? && z in mem
      ensures Rank(p, t) + 1 < |Line(p, t)| && y == Line(p, t)[Rank(p, t) + 1]
    {
      hide At;
      Look(mem, p, t, z);
      Down(mem, p, t, z, false);
      ghost var q, u;
      y, q, u := Outermost(mem[z].right, true, Step(false, z, t.red, t.l, p), t.r);
      BelowLine(q, p, t, u);
      ConcatFacts(q, Step(false, z, t.red, t.l, p), u);
      RankFacts(Below(q, p, t, z), u);
      LookKids(mem, Below(q, p, t, z), u, y);
    }

    // Climbing until the first link that is not a right link.
    method ClimbRight(z: Ptr, ghost p0: Path, ghost t0: Tree) returns (y: Ptr)
      requires At(mem, p0, t0, z) && t0.Node?
      ensures y == if After(p0) == [] then nil else After(p0)[0]
    {
      hide At;
      var x := z;
      ghost var p, t := p0, t0;
      Look(mem, p, t, x);
      y := mem[x].parent;
      while x == mem[y].right
        invariant At(mem, p, t, x) && t.Node? && y == Owner(p) && y in mem && After(p) == After(p0)
        decreases p
      {
        Look(mem, p, t, x);
        Up(mem, p, t, x);
        x := y;
        p, t := p.up, Mk(p.d, t, p.n, p.red, p.sib);
        Look(mem, p, t, x);
        y := mem[y].parent;
      }
      Look(mem, p, t, x);
      if y == root {
        y := nil;
      }
    }

    // rb_tree_predecessor; nil when z is the first node.
    method Predecessor(z: Ptr) returns (y: Ptr)
      requires Valid() && z in Nodes(tree)
      ensures Ahead(Inorder(tree), z, y, nil)
    {
      hide *;
      ghost var p, t := Find(z);
      if mem[z].left != nil {
        y := Rightmost(z, p, t);
      } else {
        y := ClimbLeft(z, p, t);
        RankFirst(p, t);
      }
      FoundAhead(p, t, z, y);
    }

    // Down to the last node left of z.
    method Rightmost(z: Ptr, ghost p: Path, ghost t: Tree) returns (y: Ptr)
      requires At(mem, p, t, z) && t.Node? && t.l.Node? && z in mem
      ensures 0 < Rank(p, t) <= |Line(p, t)| && y == Line(p, t)[Rank(p, t) - 1]
    {
      hide At;
      Look(mem, p, t, z);
      Down(mem, p, t, z, true);
      ghost var q, u;
      y, q, u := Outermost(mem[z].left, false, Step(true, z, t.red, t.r, p), t.l);
      BelowLeftLine(q, p, t, u);
      ConcatFacts(q, Step(true, z, t.red, t.r, p), u);
      RankFacts(BelowLeft(q, p, t), u);
      LookKids(mem, BelowLeft(q, p, t), u, y);
      RankAfter(BelowLeft(q, p, t), u);
      RankAfter(p, t);
    }

    // Climbing until the first link that is not a left link.
    method ClimbLeft(z: Ptr, ghost p0: Path, ghost t0: Tree) returns (y: Ptr)
      requires At(mem, p0, t0, z) && t0.Node?
      ensures y == if Before(p0) == [] then nil else Before(p0)[|Before(p0)| - 1]
    {
      hide At;
      var x := z;
      ghost var p, t := p0, t0;
      Look(mem, p, t, x);
      y := mem[x].parent;
      while x == mem[y].left
        invariant At(mem, p, t, x) && t.Node? && y == Owner(p) && y in mem && Before(p) == Before(p0)
        decreases p
      {
        Look(mem, p, t, x);
        if y == root {
          y := nil;
          return;
        }
        Up(mem, p, t, x);
        x := y;
        p, t := p.up, Mk(p.d, t, p.n, p.red, p.sib);
        Look(mem, p, t, x);
        y := mem[y].parent;
      }
      Look(mem, p, t, x);
    }

    // Stepping to the next (previous) node and back ends at the node it began with.
    method StepAndBack(z: Ptr) returns (next: Ptr, prev: Ptr, fromNext: Ptr, fromPrev: Ptr)
      requires Valid() && z in Nodes(tree)
      ensures Behind(Inorder(tree), z, next, nil) && Ahead(Inorder(tree), z, prev, nil)
      ensures next != nil ==> next in Nodes(tree) && fromNext == z
      ensures prev != nil ==> prev in Nodes(tree) && fromPrev == z
    {
      hide *;
      fromNext, fromPrev := nil, nil;
      ghost var k := PlaceOf(z);
      next := Successor(z);
      prev := Predecessor(z);
      BehindAt(Inorder(tree), z, next, nil, k);
      AheadAt(Inorder(tree), z, prev, nil, k);
      if next != nil {
        InTree(k + 1);
        fromNext := Predecessor(next);
        AheadAt(Inorder(tree), next, fromNext, nil, k + 1);
      }
      if prev != nil {
        InTree(k - 1);
        fromPrev := Successor(prev);
        BehindAt(Inorder(tree), prev, fromPrev, nil, k - 1);
      }
    }

    lemma PlaceOf(z: Ptr) returns (k: nat)
      requires Valid() && z in Nodes(tree)
      ensures k < |Inorder(tree)| && Inorder(tree)[k] == z
    {
      InorderMembers(tree);
      k :| k < |Inorder(tree)| && Inorder(tree)[k] == z;
    }

    lemma OnlyPlace(i: nat)
      requires Valid() && i < |Inorder(tree)|
      ensures forall j :: 0 <= j < |Inorder(tree)| && Inorder(tree)[j] == Inorder(tree)[i] ==> j == i
    {
      forall j: nat | j < |Inorder(tree)| && Inorder(tree)[j] == Inorder(tree)[i] ensures j == i {
        OnePlace(i, j);
      }
    }

    // A node stands at one place of the order only.
    lemma OnePlace(i: nat, j: nat)
      requires Valid() && i < |Inorder(tree)| && j < |Inorder(tree)| && Inorder(tree)[i] == Inorder(tree)[j]
      ensures i == j
    {
      InorderDistinct(tree);
    }

    lemma InTree(i: nat)
      requires Valid() && i < |Inorder(tree)|
      ensures Inorder(tree)[i] in Nodes(tree)
    {
      InorderMembers(tree);
      assert Inorder(tree)[i] in Inorder(tree);
    }

    static function Ask(probe: Ptr -> int, n: Ptr): int { probe(n) }

    // The probe of rb_search: positive for nodes after the key, negative for nodes before it.
    static ghost predicate Monotone(probe: Ptr -> int, s: seq<Ptr>) {
      forall i, j :: 0 <= i < j < |s| ==>
        (Ask(probe, s[i]) > 0 ==> Ask(probe, s[j]) > 0) && (Ask(probe, s[j]) < 0 ==> Ask(probe, s[i]) < 0)
    }

    // Every match of the whole tree lies in t.
    static ghost predicate MatchesIn(probe: Ptr -> int, whole: Tree, t: Tree) {
      forall n :: n in Nodes(whole) && Ask(probe, n) == 0 ==> n in Nodes(t)
    }

    lemma SplitMonotone(probe: Ptr -> int, a: seq<Ptr>, l: seq<Ptr>, n: Ptr, r: seq<Ptr>, b: seq<Ptr>)
      requires Monotone(probe, a + (l + [n] + r) + b)
      ensures Ask(probe, n) > 0 ==> forall i :: 0 <= i < |r| ==> Ask(probe, r[i]) > 0
      ensures Ask(probe, n) < 0 ==> forall i :: 0 <= i < |l| ==> Ask(probe, l[i]) < 0
    {
      var o, k := a + (l + [n] + r) + b, |a| + |l|;
      assert o[k] == n;
      assert forall i :: 0 <= i < |l| ==> o[|a| + i] == l[i];
      assert forall i :: 0 <= i < |r| ==> o[k + 1 + i] == r[i];
    }

    lemma MatchesDown(probe: Ptr -> int, p: Path, t: Tree, d: bool)
      requires t.Node? && Monotone(probe, Inorder(Plug(p, t))) && MatchesIn(probe, Plug(p, t), t)
      requires Ask(probe, t.n) != 0 && d == (Ask(probe, t.n) > 0)
      ensures MatchesIn(probe, Plug(p, t), Sub(t, d))
    {
      PlugInorder(p, t);
      SplitMonotone(probe, Before(p), Inorder(t.l), t.n, Inorder(t.r), After(p));
      InorderMembers(Sub(t, !d));
      forall n | n in Nodes(Sub(t, !d)) ensures Ask(probe, n) != 0 {
        assert n in Inorder(Sub(t, !d));
      }
    }

    // rb_search: a match exactly when there is one, the one highest in the tree, after
    // comparing at most 2 * log2(n + 1) nodes.
    method Search(probe: Ptr -> int) returns (r: Option<Ptr>, ghost compared: nat, ghost h: nat)
      requires Valid() && Monotone(probe, Inorder(tree))
      ensures r.None? <==> forall n :: n in Nodes(tree) ==> Ask(probe, n) != 0
      ensures r.Some? ==> r.value in Nodes(tree) && Ask(probe, r.value) == 0
      ensures r.Some? ==> forall n ::
        n in Nodes(tree) && n != r.value && Ask(probe, n) == 0 ==> Depth(tree, r.value) < Depth(tree, n)
      ensures compared <= 2 * h && Pow2(h) <= |Inorder(tree)| + 1
    {
      hide At, IsPreorder, Sorted;
      var x := mem[root].left;
      ghost var p, t := Top, tree;
      compared := 0;
      Look(mem, p, t, x);
      while x != nil && probe(x) != 0
        invariant At(mem, p, t, x) && Plug(p, t) == tree && MatchesIn(probe, tree, t) && compared == Length(p)
        invariant x != nil <==> t.Node?
        decreases t
      {
        compared := compared + 1;
        LookKids(mem, p, t, x);
        ghost var d := Ask(probe, x) > 0;
        MatchesDown(probe, p, t, d);
        Down(mem, p, t, x, d);
        x := if probe(x) > 0 then mem[x].left else mem[x].right;
        p, t := Step(d, t.n, t.red, Sub(t, !d), p), Sub(t, d);
        Look(mem, p, t, x);
      }
      if x != nil { compared := compared + 1; }
      h := DepthBound(p, t);
      if x != nil {
        r := Some(x);
        Highest(mem, probe, p, t, x);
      } else {
        r := None;
      }
    }

    lemma Highest(m: Mem, probe: Ptr -> int, p: Path, t: Tree, x: Ptr)
      requires At(m, p, t, x) && t.Node? && MatchesIn(probe, Plug(p, t), t)
      ensures x in Nodes(Plug(p, t))
      ensures forall n :: n in Nodes(Plug(p, t)) && n != x && Ask(probe, n) == 0 ==>
        Depth(Plug(p, t), x) < Depth(Plug(p, t), n)
    {
      PlugAll(p, t);
      PlugDepth(p, t, x);
      forall n | n in Nodes(Plug(p, t)) && n != x &&
        Ask(probe, n) == 0 ensures Depth(Plug(p, t), x) < Depth(Plug(p, t), n) {
        PlugDepth(p, t, n);
      }
    }

    // check_tree: every assertion it makes holds, and it returns the black height.
    method CheckTree(x: Ptr, ghost p: Path, ghost t: Tree) returns (hb: nat)
      requires At(mem, p, t, x) && Sentinels(mem) && Balanced(t) && NoRedRed(t) && IsPreorder(compare)
      requires Sorted(Inorder(Plug(p, t)))
      ensures hb == BlackHeight(t)
      decreases t
    {
      hide At, IsPreorder, Sorted;
      Look(mem, p, t, x);
      if x == nil {
        assert !mem[x].red;
        return 1;
      }
      LookKids(mem, p, t, x);
      Down(mem, p, t, x, true);
      Down(mem, p, t, x, false);
      ghost var pl, pr := Step(true, x, t.red, t.r, p), Step(false, x, t.red, t.l, p);
      Look(mem, pl, t.l, mem[x].left);
      Look(mem, pr, t.r, mem[x].right);
      KidsOrdered(p, t);
      if mem[x].left != nil {
        assert compare(x, mem[x].left) >= 0;
        assert mem[mem[x].left].parent == x;
      }
      if mem[x].right != nil {
        assert compare(x, mem[x].right) <= 0;
        assert mem[mem[x].right].parent == x;
      }
      if mem[x].red {
        assert !mem[mem[x].left].red && !mem[mem[x].right].red;
      }
      var left := CheckTree(mem[x].left, pl, t.l);
      var right := CheckTree(mem[x].right, pr, t.r);
      assert left == right;
      hb := left;
      if !mem[x].red {
        hb := hb + 1;
      }
    }

    lemma KidsOrdered(p: Path, t: Tree)
      requires t.Node? && IsPreorder(compare) && Sorted(Inorder(Plug(p, t)))
      ensures t.l.Node? ==> Cmp(compare, t.n, t.l.n) >= 0
      ensures t.r.Node? ==> Cmp(compare, t.n, t.r.n) <= 0
    {
      PlugInorder(p, t);
      SplitOrder(Before(p), Inorder(t.l), t.n, Inorder(t.r), After(p));
      if t.l.Node? { assert Inorder(t.l)[|Inorder(t.l.l)|] == t.l.n; }
      if t.r.Node? { assert Inorder(t.r)[|Inorder(t.r.l)|] == t.r.n; }
    }
  }
}
