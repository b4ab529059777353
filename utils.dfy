/** Helpers shared by the lint detectors: the walk from an invocation up to
    its enclosing method declaration, the lookup of an invocation's i-th
    argument, and the "contained in a subclass of" test. */
module Utils {
  import opened Wrappers

  /** Lifecycle hook names the detectors compare caller names against. */
  const OnStartMethod := "onStart"
  const OnStopMethod := "onStop"

  // ---------------------------------------------------------------------
  // Syntax tree with parent links
  // ---------------------------------------------------------------------

  datatype NodeKind = MethodDeclaration(methodName: string) | OtherNode

  /** A node of the syntax tree: its kind and its parent link (None at the root). */
  datatype Node = Node(kind: NodeKind, parent: Option<nat>)

  /** A tree is a sequence of nodes; a parent always sits at a smaller index,
      so every parent chain is finite and acyclic. */
  type Tree = seq<Node>

  predicate WellFormed(t: Tree) {
    forall j :: 0 <= j < |t| && t[j].parent.Some? ==> t[j].parent.value < j
  }

  /** `a` is reached from `i` by following one or more parent links. */
  predicate IsStrictAncestor(t: Tree, i: nat, a: nat)
    requires WellFormed(t) && i < |t|
    decreases i
  {
    match t[i].parent
    case None => false
    case Some(p) => p == a || IsStrictAncestor(t, p, a)
  }

  lemma {:induction false} AncestorIsBelow(t: Tree, i: nat, a: nat)
    requires WellFormed(t) && i < |t|
    requires IsStrictAncestor(t, i, a)
    ensures a < i
    decreases i
  {
    var p := t[i].parent.value;
    if p != a {
      AncestorIsBelow(t, p, a);
    }
  }

  /** The index of the nearest strict ancestor of `i` that is a method
      declaration, if any. */
  function NearestMethodDeclaration(t: Tree, i: nat): (r: Option<nat>)
    requires WellFormed(t) && i < |t|
    ensures r.Some? ==> r.value < i && t[r.value].kind.MethodDeclaration?
    decreases i
  {
    match t[i].parent
    case None => None
    case Some(p) =>
      if t[p].kind.MethodDeclaration? then Some(p) else NearestMethodDeclaration(t, p)
  }

  /** The nearest method declaration is an ancestor, it is a method
      declaration, no ancestor closer to `i` is one, and there is none exactly
      when no ancestor at all is a method declaration. */
  lemma {:induction false} NearestMethodDeclarationIsNearest(t: Tree, i: nat)
    requires WellFormed(t) && i < |t|
    ensures NearestMethodDeclaration(t, i).None? <==>
              forall a :: 0 <= a < i && IsStrictAncestor(t, i, a) ==> !t[a].kind.MethodDeclaration?
    ensures NearestMethodDeclaration(t, i).Some? ==>
              var k := NearestMethodDeclaration(t, i).value;
              && IsStrictAncestor(t, i, k)
              && t[k].kind.MethodDeclaration?
              && forall a :: k < a < i && IsStrictAncestor(t, i, a) ==> !t[a].kind.MethodDeclaration?
    decreases i
  {
    match t[i].parent
    case None =>
    case Some(p) =>
      NearestMethodDeclarationIsNearest(t, p);
      forall a | 0 <= a < i && IsStrictAncestor(t, i, a) && a != p
        ensures IsStrictAncestor(t, p, a) && a < p
      {
        AncestorIsBelow(t, p, a);
      }
  }

  /** The name of the method whose body encloses node `i`, or "" when no
      ancestor is a method declaration (a field initializer, say). */
  function CallerMethodOf(t: Tree, i: nat): string
    requires WellFormed(t) && i < |t|
  {
    match NearestMethodDeclaration(t, i)
    case None => ""
    case Some(k) => t[k].kind.methodName
  }

  /** Method declarations always carry a non-empty name in Java. */
  predicate MethodNamesNonEmpty(t: Tree) {
    forall j :: 0 <= j < |t| && t[j].kind.MethodDeclaration? ==> t[j].kind.methodName != ""
  }

  lemma CallerMethodEmptyIffNoEnclosingMethod(t: Tree, i: nat)
    requires WellFormed(t) && i < |t| && MethodNamesNonEmpty(t)
    ensures CallerMethodOf(t, i) == "" <==>
              forall a :: 0 <= a < i && IsStrictAncestor(t, i, a) ==> !t[a].kind.MethodDeclaration?
  {
    NearestMethodDeclarationIsNearest(t, i);
  }

  /** The parent walk: starting from the invocation's parent, climb until a
      method declaration or the root is found. */
  method GetCallerMethod(t: Tree, invocation: nat) returns (name: string)
    requires WellFormed(t) && invocation < |t|
    ensures name == CallerMethodOf(t, invocation)
  {
    var methodDeclaration: Option<nat> := None;
    var parent: Option<nat> := Some(invocation);
    while true
      invariant parent.Some? && parent.value < |t|
      invariant NearestMethodDeclaration(t, parent.value) == NearestMethodDeclaration(t, invocation)
      invariant methodDeclaration == None
      decreases parent.value
    {
      var next := t[parent.value].parent;
      if next == None {
        parent := None;
        break;
      }
      parent := next;
      if t[next.value].kind.MethodDeclaration? {
        methodDeclaration := next;
        break;
      }
    }
    if methodDeclaration == None {
      name := "";
    } else {
      name := t[methodDeclaration.value].kind.methodName;
    }
  }

  // ---------------------------------------------------------------------
  // Invocation arguments
  // ---------------------------------------------------------------------

  /** The source text of argument `i` of an invocation whose argument list is
      `arguments` (None when the tree has no argument list), or "" when there
      is no such argument. */
  method GetMethodInvocationArgumentName(arguments: Option<seq<string>>, i: int) returns (name: string)
    ensures arguments.Some? && 0 <= i < |arguments.value| ==> name == arguments.value[i]
    ensures arguments.None? || i < 0 || i >= |arguments.value| ==> name == ""
  {
    if arguments.Some? {
      var nodes := arguments.value;
      var c := 0;
      while c < |nodes|
        invariant 0 <= c <= |nodes|
        invariant i < 0 || i >= c
      {
        if i == c {
          return nodes[c];
        }
        c := c + 1;
      }
    }
    return "";
  }

  // ---------------------------------------------------------------------
  // Class hierarchy
  // ---------------------------------------------------------------------

  /** A resolved class: its qualified name and its superclass link. */
  datatype ClassDecl = ClassDecl(name: string, superclass: Option<nat>)

  /** Classes in a sequence; a superclass always sits at a smaller index. */
  type Hierarchy = seq<ClassDecl>

  predicate HierarchyWellFormed(h: Hierarchy) {
    forall j :: 0 <= j < |h| && h[j].superclass.Some? ==> h[j].superclass.value < j
  }

  /** A resolved method: its name and the index of its containing class. */
  datatype ResolvedMethod = ResolvedMethod(name: string, containingClass: nat)

  /** Whether class `c` is the class named `className` (only when not
      `strict`) or extends it through its superclass chain. */
  predicate IsSubclassOf(h: Hierarchy, c: nat, className: string, strict: bool)
    requires HierarchyWellFormed(h) && c < |h|
    decreases c
  {
    (!strict && h[c].name == className) ||
    match h[c].superclass
    case None => false
    case Some(s) => IsSubclassOf(h, s, className, false)
  }

  /** `a` is `c` itself or reached from `c` by superclass links. */
  predicate InSuperclassChain(h: Hierarchy, c: nat, a: nat)
    requires HierarchyWellFormed(h) && c < |h|
    decreases c
  {
    a == c ||
    match h[c].superclass
    case None => false
    case Some(s) => InSuperclassChain(h, s, a)
  }

  /** The method's containing class is `className` or one of its subclasses. */
  predicate IsMethodContainedInSubclassOf(h: Hierarchy, m: ResolvedMethod, className: string)
    requires HierarchyWellFormed(h) && m.containingClass < |h|
  {
    IsSubclassOf(h, m.containingClass, className, false)
  }

  /** The non-strict test holds exactly when some class on the superclass
      chain of the containing class, the class itself included, carries the
      name; in particular it is reflexive. */
  lemma {:induction false} ContainedInSubclassOfIffNamedInChain(h: Hierarchy, m: ResolvedMethod, className: string)
    requires HierarchyWellFormed(h) && m.containingClass < |h|
    ensures IsMethodContainedInSubclassOf(h, m, className) <==>
              exists a :: 0 <= a <= m.containingClass && InSuperclassChain(h, m.containingClass, a) && h[a].name == className
    decreases m.containingClass
  {
    var c := m.containingClass;
    if h[c].name == className {
      assert InSuperclassChain(h, c, c);
    } else {
      match h[c].superclass
      case None =>
        forall a | 0 <= a <= c && InSuperclassChain(h, c, a) ensures a == c { }
      case Some(s) =>
        ContainedInSubclassOfIffNamedInChain(h, m.(containingClass := s), className);
        if IsSubclassOf(h, s, className, false) {
          var a :| 0 <= a <= s && InSuperclassChain(h, s, a) && h[a].name == className;
          assert InSuperclassChain(h, c, a);
        }
        forall a | 0 <= a <= c && InSuperclassChain(h, c, a) && h[a].name == className
          ensures 0 <= a <= s && InSuperclassChain(h, s, a)
        {
          ChainIsBelow(h, s, a);
        }
    }
  }

  lemma {:induction false} ChainIsBelow(h: Hierarchy, c: nat, a: nat)
    requires HierarchyWellFormed(h) && c < |h|
    requires InSuperclassChain(h, c, a)
    ensures a <= c
    decreases c
  {
    if a != c {
      ChainIsBelow(h, h[c].superclass.value, a);
    }
  }

  lemma ContainedInSubclassOfIsReflexive(h: Hierarchy, m: ResolvedMethod)
    requires HierarchyWellFormed(h) && m.containingClass < |h|
    ensures IsMethodContainedInSubclassOf(h, m, h[m.containingClass].name)
  {
  }
}
