/** The field objects of a DEFINE DATA section, nested with a stack of parents (internal/analysis/natural/parser.go,
    parseDataFields and parseMap). */
module LevelForest {
  import opened Nesting

  class FieldNode {
    const item: Item
    var children: seq<FieldNode>

    constructor (item: Item)
      ensures this.item == item && children == []
    {
      this.item := item;
      children := [];
    }
  }

  /** The objects with the given numbers. */
  function Objects(made: seq<FieldNode>, indices: seq<nat>): (r: seq<FieldNode>)
    requires forall k :: 0 <= k < |indices| ==> indices[k] < |made|
    ensures |r| == |indices| && forall k :: 0 <= k < |r| ==> r[k] == made[indices[k]]
  {
    seq(|indices|, k requires 0 <= k < |indices| => made[indices[k]])
  }

  /** The objects made so far for the first n items: all different, and the children of each are the objects of the
      items whose parent it is. */
  ghost predicate Built(items: seq<Item>, made: seq<FieldNode>)
    reads made
  {
    && |made| <= |items|
    && (forall i, j :: 0 <= i < j < |made| ==> made[i] != made[j])
    && (forall j :: 0 <= j < |made| ==> made[j].item == items[j])
    && (forall j :: 0 <= j < |made| ==> made[j].children == Objects(made, KidsIn(items, j, 0, |made|)))
  }

  /** The objects below `nodes` form exactly the given trees. */
  ghost predicate Represents(nodes: seq<FieldNode>, trees: seq<Tree>)
    reads *
    decreases trees
  {
    && |nodes| == |trees|
    && forall i :: 0 <= i < |trees| ==>
         nodes[i].item == trees[i].item && Represents(nodes[i].children, trees[i].children)
  }

  lemma RepresentsCons(node: FieldNode, nodes: seq<FieldNode>, t: Tree, trees: seq<Tree>)
    requires node.item == t.item && Represents(node.children, t.children) && Represents(nodes, trees)
    ensures Represents([node] + nodes, [t] + trees)
  {
  }

  lemma {:induction false} ChildrenOf(items: seq<Item>, made: seq<FieldNode>, j: nat)
    requires Built(items, made) && j < |made|
    ensures made[j].item == items[j] && made[j].children == Objects(made, KidsIn(items, j, 0, |made|))
  {
  }

  lemma {:induction false} ChildrenRepresent(items: seq<Item>, made: seq<FieldNode>, j: int, a: nat)
    requires Built(items, made) && |made| == |items|
    requires -1 <= j < |items| && j < a <= EndOf(items, j) && (a < EndOf(items, j) ==> Parent(items, a) == j)
    ensures Represents(Objects(made, KidsIn(items, j, a, |items|)), NestRange(items, a, EndOf(items, j)))
    decreases EndOf(items, j) - a
  {
    hide EndOf, SubEnd, Parent, NestRange, Built, KidsIn;
    var n, e := |items|, EndOf(items, j);
    if a == e {
      NoKidsFromEnd(items, j);
      NestNothing(items, a);
    } else {
      NextSibling(items, j, a);
      KidsFrom(items, j, a);
      NestStep(items, a, e);
      ChildrenOf(items, made, a);
      var x := EndOf(items, a);
      ChildrenRepresent(items, made, j, x);
      if a + 1 < x {
        FirstChild(items, a);
      }
      ChildrenRepresent(items, made, a, a + 1);
      var nodes, trees := Objects(made, KidsIn(items, j, x, n)), NestRange(items, x, e);
      RepresentsCons(made[a], nodes, Tree(items[a], NestRange(items, a + 1, x)), trees);
      assert Objects(made, [a] + KidsIn(items, j, x, n)) == [made[a]] + nodes;
      var all := NestRange(items, a, e);
      assert all == [all[0]] + all[1..];
    }
  }

  lemma ObjectsSnoc(made: seq<FieldNode>, node: FieldNode, indices: seq<nat>, withNode: bool)
    requires forall k :: 0 <= k < |indices| ==> indices[k] < |made|
    ensures Objects(made + [node], indices + if withNode then [|made|] else [])
         == Objects(made, indices) + if withNode then [node] else []
  {
  }

  /** One more object, appended to the children of the top of the stack or to the roots, keeps the objects built. */
  method Attach(item: Item, roots: seq<FieldNode>, stack: seq<FieldNode>, ghost items: seq<Item>,
      ghost made: seq<FieldNode>)
    returns (node: FieldNode, more: seq<FieldNode>)
    requires Built(items, made) && |made| < |items| && item == items[|made|]
    requires roots == Objects(made, KidsIn(items, -1, 0, |made|))
    requires var p := Parent(items, |made|); if p < 0 then stack == [] else stack != [] && stack[|stack| - 1] == made[p]
    modifies made
    ensures fresh(node) && Built(items, made + [node])
    ensures more == Objects(made + [node], KidsIn(items, -1, 0, |made| + 1))
  {
    hide KidsIn, Parent, Objects;
    ghost var n := |made|;
    ghost var p := Parent(items, n);
    KidsGrow(items, n);
    node := new FieldNode(item);
    more := roots;
    if |stack| == 0 {
      more := roots + [node];
    } else {
      var parent := stack[|stack| - 1];
      parent.children := parent.children + [node];
    }
    ObjectsSnoc(made, node, KidsIn(items, -1, 0, n), p == -1);
    forall j | 0 <= j < n ensures made[j].children == Objects(made + [node], KidsIn(items, j, 0, n + 1)) {
      ObjectsSnoc(made, node, KidsIn(items, j, 0, n), p == j);
    }
    ObjectsSnoc(made, node, KidsIn(items, n, 0, n), false);
  }

  /** Popping the stack down to the parent of the next field. */
  method Pop(stack: seq<FieldNode>, level: int, ghost items: seq<Item>, ghost made: seq<FieldNode>)
    returns (rest: seq<FieldNode>)
    requires |made| < |items| && level == items[|made|].level
    requires forall j :: 0 <= j < |made| ==> made[j].item == items[j] && items[j].opens
    requires IsStack(items, made, |made| - 1, stack)
    ensures IsStack(items, made, Parent(items, |made|), rest)
  {
    hide Parent, Search, IsStack;
    ghost var d := |made| - 1;
    rest := stack;
    PopStart(items, |made|);
    StackTop(items, made, d, rest);
    while |rest| > 0 && rest[|rest| - 1].item.level >= level
      invariant -1 <= d < |made| && IsStack(items, made, d, rest)
      invariant if d < 0 then rest == [] else rest != [] && rest[|rest| - 1] == made[d]
      invariant Search(items, level, d) == Parent(items, |made|)
    {
      StackTop(items, made, d, rest);
      PopStep(items, level, d);
      rest := rest[..|rest| - 1];
      d := Parent(items, d);
      StackTop(items, made, d, rest);
    }
    FoundAtOnce(items, level, d);
  }

  /** The stack behind field d: it and its ancestors, innermost last. */
  ghost predicate IsStack(items: seq<Item>, made: seq<FieldNode>, d: int, stack: seq<FieldNode>)
    requires -1 <= d < |made| && |made| <= |items|
  {
    stack == Objects(made, Chain(items, d))
  }

  lemma StackTop(items: seq<Item>, made: seq<FieldNode>, d: int, stack: seq<FieldNode>)
    requires -1 <= d < |made| && |made| <= |items| && (d >= 0 ==> items[d].opens) && IsStack(items, made, d, stack)
    ensures if d < 0 then stack == []
            else stack != [] && stack[|stack| - 1] == made[d]
                   && IsStack(items, made, Parent(items, d), stack[..|stack| - 1])
  {
    ChainObjects(items, made, d);
  }

  lemma StackPush(items: seq<Item>, made: seq<FieldNode>, node: FieldNode, stack: seq<FieldNode>)
    requires |made| < |items| && items[|made|].opens && IsStack(items, made, Parent(items, |made|), stack)
    ensures IsStack(items, made + [node], |made|, stack + [node])
  {
    hide Parent, Chain, Objects;
    ChainGrows(items, |made|);
    ObjectsSnoc(made, node, Chain(items, Parent(items, |made|)), true);
  }

  /** The top of the stack is the last field, and below it is the stack of its parent. */
  lemma {:induction false} ChainObjects(items: seq<Item>, made: seq<FieldNode>, d: int)
    requires -1 <= d < |made| && |made| <= |items| && (d >= 0 ==> items[d].opens)
    ensures var o := Objects(made, Chain(items, d));
            if d < 0 then o == []
            else |o| > 0 && o[|o| - 1] == made[d] && o[..|o| - 1] == Objects(made, Chain(items, Parent(items, d)))
  {
    hide Search, Parent;
  }

  lemma {:induction false} BuiltFields(items: seq<Item>, made: seq<FieldNode>)
    requires Built(items, made)
    ensures forall j :: 0 <= j < |made| ==> made[j].item == items[j]
  {
  }

  /** Popping every parent whose level is not below the field's, attaching the field to the one left, and pushing it,
      makes the forest of the fields. */
  method NestFields(items: seq<Item>) returns (roots: seq<FieldNode>)
    requires forall i :: 0 <= i < |items| ==> items[i].opens
    ensures Represents(roots, Nest(items))
  {
    hide Parent, KidsIn, NestRange, Nest, Built, EndOf, Represents, Objects, IsStack;
    roots := [];
    var parentStack: seq<FieldNode> := [];
    ghost var made: seq<FieldNode> := [];
    NothingBuilt(items);
    for n := 0 to |items|
      invariant |made| == n && Built(items, made) && fresh(made)
      invariant roots == Objects(made, KidsIn(items, -1, 0, n))
      invariant IsStack(items, made, n - 1, parentStack)
    {
      var item := items[n];
      BuiltFields(items, made);
      parentStack := Pop(parentStack, item.level, items, made);
      StackTop(items, made, Parent(items, n), parentStack);
      var node;
      node, roots := Attach(item, roots, parentStack, items, made);
      StackPush(items, made, node, parentStack);
      parentStack := parentStack + [node];
      made := made + [node];
    }
    RootsRepresent(items, made);
  }

  lemma {:induction false} NothingBuilt(items: seq<Item>)
    ensures Built(items, []) && Objects([], KidsIn(items, -1, 0, 0)) == [] && IsStack(items, [], -1, [])
  {
  }

  lemma {:induction false} RootsRepresent(items: seq<Item>, made: seq<FieldNode>)
    requires Built(items, made) && |made| == |items|
    ensures Represents(Objects(made, KidsIn(items, -1, 0, |items|)), Nest(items))
  {
    hide NestRange, Built, Parent, KidsIn;
    if |items| > 0 {
      FirstChild(items, -1);
    }
    ChildrenRepresent(items, made, -1, 0);
  }
}
