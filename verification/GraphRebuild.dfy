/** The clean-up of an extracted graph (internal/graphrag/extractor.go): node objects are merged in place. */
module GraphRebuild {
  import opened Counting

  // ---------------------------------------------------------------- data

  class GraphNode {
    var name: string
    var kind: string
    var chunks: seq<string>
    var attributes: seq<string>

    constructor (name: string)
      ensures this.name == name && kind == "" && chunks == attributes == []
    {
      this.name, kind, chunks, attributes := name, "", [], [];
    }
  }

  datatype Relation = Relation(node1: string, node2: string, kind: string)

  class GraphData {
    var text: string
    var node: seq<GraphNode>
    var relation: seq<Relation>

    constructor (text: string, node: seq<GraphNode>, relation: seq<Relation>)
      ensures this.text == text && this.node == node && this.relation == relation
    {
      this.text, this.node, this.relation := text, node, relation;
    }
  }

  /** The fields of a node at one moment. */
  datatype Info = Info(name: string, kind: string, chunks: seq<string>, attributes: seq<string>)

  type Infos = map<GraphNode, Info>

  ghost function Snapshot(nodes: seq<GraphNode>): Infos
    reads nodes
  {
    map n | n in nodes :: Info(n.name, n.kind, n.chunks, n.attributes)
  }

  predicate Known(nodes: seq<GraphNode>, info: Infos) {
    forall n :: n in nodes ==> n in info
  }

  // ---------------------------------------------------------------- what becomes of the nodes

  function Names(nodes: seq<GraphNode>, info: Infos): set<string>
    requires Known(nodes, info)
  {
    set n | n in nodes :: info[n].name
  }

  /** The first node of that name. */
  function FirstNamed(nodes: seq<GraphNode>, info: Infos, name: string): (f: GraphNode)
    requires Known(nodes, info) && name in Names(nodes, info)
    ensures f in nodes && info[f].name == name
  {
    var front := nodes[..|nodes| - 1];
    assert nodes == front + [nodes[|nodes| - 1]];
    if name in Names(front, info) then FirstNamed(front, info, name) else nodes[|nodes| - 1]
  }

  predicate IsFirst(nodes: seq<GraphNode>, info: Infos, f: GraphNode)
    requires Known(nodes, info)
  {
    f in nodes && FirstNamed(nodes, info, info[f].name) == f
  }

  /** The first nodes of their names, in order. */
  function Firsts(nodes: seq<GraphNode>, info: Infos): (kept: seq<GraphNode>)
    requires Known(nodes, info)
    ensures forall n :: n in kept ==> n in nodes
  {
    if nodes == [] then [] else
      var front, last := nodes[..|nodes| - 1], nodes[|nodes| - 1];
      if info[last].name in Names(front, info) then Firsts(front, info) else Firsts(front, info) + [last]
  }

  /** The attributes `f` has once `nodes` have been gone through: a first node takes over those of every later
      node of its name, which doubles its own when it is met again itself. */
  function Gathered(nodes: seq<GraphNode>, info: Infos, f: GraphNode): seq<string>
    requires Known(nodes, info) && f in info
  {
    if nodes == [] then info[f].attributes else
      var front, last := nodes[..|nodes| - 1], nodes[|nodes| - 1];
      var before := Gathered(front, info, f);
      if info[last].name in Names(front, info) && FirstNamed(front, info, info[last].name) == f then
        before + if last == f then before else info[last].attributes
      else
        before
  }

  /** The attributes of all nodes of that name, in order. */
  function AllAttributes(nodes: seq<GraphNode>, info: Infos, name: string): seq<string>
    requires Known(nodes, info)
  {
    if nodes == [] then [] else
      var front, last := nodes[..|nodes| - 1], nodes[|nodes| - 1];
      AllAttributes(front, info, name) + if info[last].name == name then info[last].attributes else []
  }

  lemma NamesNext(nodes: seq<GraphNode>, info: Infos)
    requires nodes != [] && Known(nodes, info)
    ensures Known(nodes[..|nodes| - 1], info)
    ensures Names(nodes, info) == Names(nodes[..|nodes| - 1], info) + {info[nodes[|nodes| - 1]].name}
  {
    assert nodes == nodes[..|nodes| - 1] + [nodes[|nodes| - 1]];
  }

  lemma {:induction false} NoneNamed(nodes: seq<GraphNode>, info: Infos, name: string)
    requires Known(nodes, info) && name !in Names(nodes, info)
    ensures AllAttributes(nodes, info, name) == []
  {
    if nodes != [] {
      NamesNext(nodes, info);
      NoneNamed(nodes[..|nodes| - 1], info, name);
    }
  }

  lemma {:induction false} OthersKeepTheirs(nodes: seq<GraphNode>, info: Infos, f: GraphNode)
    requires Known(nodes, info) && f in info && !IsFirst(nodes, info, f)
    ensures Gathered(nodes, info, f) == info[f].attributes
  {
    if nodes != [] {
      var front, last := nodes[..|nodes| - 1], nodes[|nodes| - 1];
      NamesNext(nodes, info);
      assert f in front ==> f in nodes;
      OthersKeepTheirs(front, info, f);
    }
  }

  /** Of distinct node objects, each first one ends with the attributes of all its duplicates, in order. */
  lemma {:induction false} GatheredIsAll(nodes: seq<GraphNode>, info: Infos, f: GraphNode)
    requires Known(nodes, info) && NoDup(nodes) && IsFirst(nodes, info, f)
    ensures Gathered(nodes, info, f) == AllAttributes(nodes, info, info[f].name)
  {
    var front, last := nodes[..|nodes| - 1], nodes[|nodes| - 1];
    NamesNext(nodes, info);
    if info[f].name in Names(front, info) {
      GatheredIsAll(front, info, f);
      assert last !in front;
    } else {
      assert f == last;
      NoneNamed(front, info, info[f].name);
      assert !IsFirst(front, info, f);
      OthersKeepTheirs(front, info, f);
    }
  }

  lemma {:induction false} FirstsAreFirst(nodes: seq<GraphNode>, info: Infos)
    requires Known(nodes, info)
    ensures forall f :: f in Firsts(nodes, info) <==> IsFirst(nodes, info, f)
    ensures Names(Firsts(nodes, info), info) == Names(nodes, info)
  {
    var kept := Firsts(nodes, info);
    if nodes != [] {
      var front, last := nodes[..|nodes| - 1], nodes[|nodes| - 1];
      NamesNext(nodes, info);
      FirstsAreFirst(front, info);
      assert nodes == front + [last];
      if info[last].name !in Names(front, info) {
        NamesNext(kept, info);
        assert kept[..|kept| - 1] == Firsts(front, info);
      }
    }
  }

  predicate UniqueNames(nodes: seq<GraphNode>, info: Infos)
    requires Known(nodes, info)
  {
    forall i, j :: 0 <= i < j < |nodes| ==> info[nodes[i]].name != info[nodes[j]].name
  }

  lemma {:induction false} FirstsUnique(nodes: seq<GraphNode>, info: Infos)
    requires Known(nodes, info)
    ensures UniqueNames(Firsts(nodes, info), info)
  {
    if nodes != [] {
      var front, last := nodes[..|nodes| - 1], nodes[|nodes| - 1];
      FirstsUnique(front, info);
      FirstsAreFirst(front, info);
      var kept := Firsts(front, info);
      forall i | 0 <= i < |kept| ensures info[kept[i]].name in Names(front, info) {
        assert kept[i] in kept;
      }
    }
  }

  // ---------------------------------------------------------------- what becomes of the relations

  /** The relations that are not self-loops, in order. */
  function Loopless(rels: seq<Relation>): seq<Relation> {
    if rels == [] then [] else
      var last := rels[|rels| - 1];
      Loopless(rels[..|rels| - 1]) + if last.node1 == last.node2 then [] else [last]
  }

  /** Names that are not known, in the order in which `ends` mentions them first. */
  function Unknown(known: set<string>, ends: seq<string>): seq<string> {
    if ends == [] then [] else
      var before, last := Unknown(known, ends[..|ends| - 1]), ends[|ends| - 1];
      if last in known || last in before then before else before + [last]
  }

  /** Both ends of every relation, in order. */
  function Ends(rels: seq<Relation>): seq<string> {
    if rels == [] then [] else Ends(rels[..|rels| - 1]) + [rels[|rels| - 1].node1, rels[|rels| - 1].node2]
  }

  lemma {:induction false} LooplessMeets(rels: seq<Relation>)
    ensures forall r :: r in Loopless(rels) <==> r in rels && r.node1 != r.node2
  {
    if rels != [] {
      LooplessMeets(rels[..|rels| - 1]);
      assert rels == rels[..|rels| - 1] + [rels[|rels| - 1]];
    }
  }

  lemma {:induction false} EndsMeet(rels: seq<Relation>)
    ensures forall name :: name in Ends(rels) <==> exists r :: r in rels && (r.node1 == name || r.node2 == name)
  {
    if rels != [] {
      var front, last := rels[..|rels| - 1], rels[|rels| - 1];
      EndsMeet(front);
      assert rels == front + [last];
    }
  }

  lemma {:induction false} UnknownMeets(known: set<string>, ends: seq<string>)
    ensures NoDup(Unknown(known, ends))
    ensures forall name :: name in Unknown(known, ends) <==> name in ends && name !in known
  {
    if ends != [] {
      var front, last := ends[..|ends| - 1], ends[|ends| - 1];
      UnknownMeets(known, front);
      assert ends == front + [last];
    }
  }

  // ---------------------------------------------------------------- the order of what is kept

  /** `sub` are the elements of `all` at the places `at`, in order. */
  predicate PickedAt<T(==)>(all: seq<T>, sub: seq<T>, at: seq<nat>) {
    && |at| == |sub|
    && (forall j, k :: 0 <= j < k < |at| ==> at[j] < at[k])
    && forall k :: 0 <= k < |at| ==> at[k] < |all| && sub[k] == all[at[k]]
  }

  lemma PickedNext<T>(all: seq<T>, sub: seq<T>, at: seq<nat>, last: T)
    requires PickedAt(all, sub, at)
    ensures PickedAt(all + [last], sub, at) && PickedAt(all + [last], sub + [last], at + [|all|])
  {
  }

  /** No node before number `i` has its name. */
  predicate HasNewName(nodes: seq<GraphNode>, info: Infos, i: nat)
    requires Known(nodes, info)
  {
    i < |nodes| && forall j :: 0 <= j < i ==> info[nodes[j]].name != info[nodes[i]].name
  }

  lemma NewNameNext(front: seq<GraphNode>, last: GraphNode, info: Infos)
    requires Known(front + [last], info)
    ensures Known(front, info)
    ensures forall i: nat :: i < |front| ==> (HasNewName(front + [last], info, i) <==> HasNewName(front, info, i))
    ensures HasNewName(front + [last], info, |front|) <==> info[last].name !in Names(front, info)
  {
    var all := front + [last];
    assert forall n :: n in front ==> n in all;
    assert forall i :: 0 <= i < |front| ==> all[i] == front[i];
    assert all[|front|] == last;
  }

  /** `at` are the places of the nodes with a new name. */
  ghost predicate AtNewNames(nodes: seq<GraphNode>, info: Infos, at: seq<nat>)
    requires Known(nodes, info)
  {
    forall i: nat :: i in at <==> HasNewName(nodes, info, i)
  }

  lemma NewNamesNext(front: seq<GraphNode>, last: GraphNode, info: Infos, at: seq<nat>)
    requires Known(front + [last], info) && Known(front, info) && AtNewNames(front, info, at)
    ensures AtNewNames(front + [last], info, if info[last].name in Names(front, info) then at else at + [|front|])
  {
    hide HasNewName, Names, Known;
    NewNameNext(front, last, info);
    NoNewName(front, info);
    NoNewName(front + [last], info);
  }

  /** Exactly the nodes whose name no node before them has, in order. */
  lemma {:induction false} FirstsInOrder(nodes: seq<GraphNode>, info: Infos) returns (at: seq<nat>)
    requires Known(nodes, info)
    ensures PickedAt(nodes, Firsts(nodes, info), at) && AtNewNames(nodes, info, at)
  {
    at := [];
    if nodes == [] {
      NothingPicked(nodes);
    } else {
      hide AtNewNames, Names, PickedAt, Firsts;
      var front, last := nodes[..|nodes| - 1], nodes[|nodes| - 1];
      assert nodes == front + [last];
      at := FirstsInOrder(front, info);
      FirstsNext(front, last, info);
      PickedNext(front, Firsts(front, info), at, last);
      NewNamesNext(front, last, info, at);
      at := if info[last].name in Names(front, info) then at else at + [|front|];
    }
  }

  lemma FirstsNext(front: seq<GraphNode>, last: GraphNode, info: Infos)
    requires Known(front + [last], info) && Known(front, info)
    ensures Firsts(front + [last], info)
            == if info[last].name in Names(front, info) then Firsts(front, info) else Firsts(front, info) + [last]
  {
    hide Names;
    assert (front + [last])[..|front|] == front;
  }

  lemma NothingPicked<T>(all: seq<T>)
    ensures PickedAt(all, [], [])
  {
  }

  lemma NoNewName(nodes: seq<GraphNode>, info: Infos)
    requires Known(nodes, info)
    ensures forall i: nat :: HasNewName(nodes, info, i) ==> i < |nodes|
  {
  }

  /** Exactly the relations that are not self-loops, in order. */
  lemma {:induction false} LooplessInOrder(rels: seq<Relation>) returns (at: seq<nat>)
    ensures PickedAt(rels, Loopless(rels), at)
    ensures forall i: nat :: i in at <==> i < |rels| && rels[i].node1 != rels[i].node2
  {
    at := [];
    if rels != [] {
      var front, last := rels[..|rels| - 1], rels[|rels| - 1];
      var before := LooplessInOrder(front);
      PickedNext(front, Loopless(front), before, last);
      assert rels == front + [last];
      at := if last.node1 == last.node2 then before else before + [|front|];
    }
  }

  /** The mention number `i` is the first one of a name that is not known. */
  predicate IsNewMention(known: set<string>, ends: seq<string>, i: nat) {
    i < |ends| && ends[i] !in known && forall j :: 0 <= j < i ==> ends[j] != ends[i]
  }

  lemma NewMentionNext(known: set<string>, front: seq<string>, last: string)
    ensures forall i: nat :: i < |front| ==> (IsNewMention(known, front + [last], i) <==> IsNewMention(known, front, i))
    ensures IsNewMention(known, front + [last], |front|) <==> last !in known && last !in front
    ensures forall i: nat :: IsNewMention(known, front + [last], i) ==> i <= |front|
    ensures forall i: nat :: IsNewMention(known, front, i) ==> i < |front|
  {
    var all := front + [last];
    assert forall i :: 0 <= i < |front| ==> all[i] == front[i];
    assert all[|front|] == last;
  }

  /** Exactly the names that are not known, where they are mentioned first, in order. */
  lemma {:induction false} UnknownInOrder(known: set<string>, ends: seq<string>) returns (at: seq<nat>)
    ensures PickedAt(ends, Unknown(known, ends), at)
    ensures forall i: nat :: i in at <==> IsNewMention(known, ends, i)
  {
    at := [];
    if ends != [] {
      hide IsNewMention, PickedAt;
      var front, last := ends[..|ends| - 1], ends[|ends| - 1];
      assert ends == front + [last];
      var before := UnknownInOrder(known, front);
      UnknownMeets(known, front);
      PickedNext(front, Unknown(known, front), before, last);
      NewMentionNext(known, front, last);
      at := if last in known || last in front then before else before + [|front|];
    }
  }

  /** First the first end of a relation is mentioned, then the second, relation after relation. */
  lemma {:induction false} EndsInOrder(rels: seq<Relation>, i: nat)
    requires i < |rels|
    ensures |Ends(rels)| == 2 * |rels|
    ensures Ends(rels)[2 * i] == rels[i].node1 && Ends(rels)[2 * i + 1] == rels[i].node2
  {
    var n := |rels| - 1;
    if i < n {
      EndsInOrder(rels[..n], i);
    } else if n > 0 {
      EndsInOrder(rels[..n], 0);
    }
  }

  /** A node for both ends of every relation, no name twice, no self-loop. */
  ghost predicate Clean(nodes: seq<GraphNode>, info: Infos, rels: seq<Relation>)
    requires Known(nodes, info)
  {
    && UniqueNames(nodes, info)
    && forall r :: r in rels ==> r.node1 != r.node2 && r.node1 in Names(nodes, info) && r.node2 in Names(nodes, info)
  }

  /** The clean graphs are exactly those the clean-up leaves alone. */
  lemma CleanIff(nodes: seq<GraphNode>, info: Infos, rels: seq<Relation>)
    requires Known(nodes, info)
    ensures Clean(nodes, info, rels) <==>
            && Firsts(nodes, info) == nodes && Loopless(rels) == rels
            && Unknown(Names(nodes, info), Ends(Loopless(rels))) == []
    ensures Clean(nodes, info, rels) ==> forall n :: n in nodes ==> Gathered(nodes, info, n) == info[n].attributes
  {
    hide Clean, Firsts, Gathered, Loopless, Unknown, Ends;
    CleanParts(nodes, info, rels);
    FirstsUnique(nodes, info);
    if UniqueNames(nodes, info) {
      UniqueStay(nodes, info);
    }
    LooplessFixed(rels);
    LooplessMeets(rels);
    EndsMeet(Loopless(rels));
    UnknownMeets(Names(nodes, info), Ends(Loopless(rels)));
    if Unknown(Names(nodes, info), Ends(Loopless(rels))) != [] {
      assert Unknown(Names(nodes, info), Ends(Loopless(rels)))[0] in Unknown(Names(nodes, info), Ends(Loopless(rels)));
    }
  }

  lemma CleanParts(nodes: seq<GraphNode>, info: Infos, rels: seq<Relation>)
    requires Known(nodes, info)
    ensures Clean(nodes, info, rels) <==>
            && UniqueNames(nodes, info)
            && (forall r :: r in rels ==> r.node1 != r.node2)
            && (forall r, name :: r in rels && (r.node1 == name || r.node2 == name) ==> name in Names(nodes, info))
  {
  }

  lemma {:induction false} UniqueStay(nodes: seq<GraphNode>, info: Infos)
    requires Known(nodes, info) && UniqueNames(nodes, info)
    ensures Firsts(nodes, info) == nodes
    ensures forall n :: n in info ==> Gathered(nodes, info, n) == info[n].attributes
  {
    if nodes != [] {
      var front, last := nodes[..|nodes| - 1], nodes[|nodes| - 1];
      UniqueStay(front, info);
      assert nodes == front + [last];
      assert info[last].name !in Names(front, info);
    }
  }

  lemma LooplessNext(front: seq<Relation>, last: Relation)
    ensures Loopless(front + [last]) == if last.node1 == last.node2 then Loopless(front) else Loopless(front) + [last]
  {
    assert (front + [last])[..|front|] == front;
  }

  lemma SameFronts<T>(a: seq<T>, b: seq<T>, x: T)
    ensures a + [x] == b + [x] <==> a == b
  {
    if a + [x] == b + [x] {
      assert a == (a + [x])[..|a|] && b == (b + [x])[..|b|];
    }
  }

  predicate NoLoops(rels: seq<Relation>) {
    forall r :: r in rels ==> r.node1 != r.node2
  }

  lemma {:induction false} LooplessFixed(rels: seq<Relation>)
    ensures |Loopless(rels)| <= |rels|
    ensures Loopless(rels) == rels <==> NoLoops(rels)
  {
    if rels != [] {
      hide Loopless, NoLoops;
      var front, last := rels[..|rels| - 1], rels[|rels| - 1];
      LooplessFixed(front);
      assert rels == front + [last];
      LooplessNext(front, last);
      SameFronts(Loopless(front), front, last);
      AllOfBoth(front, last);
    }
  }

  lemma AllOfBoth(front: seq<Relation>, last: Relation)
    ensures NoLoops(front + [last]) <==> last.node1 != last.node2 && NoLoops(front)
  {
    assert last in front + [last];
  }

  // ---------------------------------------------------------------- rebuildGraph

  /** The fields of the nodes of `nodes` after the first loop has gone through `seen`. */
  ghost predicate MergedSoFar(nodes: seq<GraphNode>, info: Infos, seen: seq<GraphNode>)
    requires Known(nodes, info) && Known(seen, info)
    reads nodes
  {
    forall n :: n in nodes ==>
      n.name == info[n].name && n.kind == info[n].kind && n.chunks == info[n].chunks
          && n.attributes == Gathered(seen, info, n)
  }

  ghost predicate MapsToFirsts(nodeMap: map<string, GraphNode>, nodes: seq<GraphNode>, info: Infos)
    requires Known(nodes, info)
  {
    nodeMap.Keys == Names(nodes, info) && forall name :: name in nodeMap ==>
        nodeMap[name] == FirstNamed(nodes, info, name)
  }

  /** The loop over the nodes. */
  method MergeDuplicates(all: seq<GraphNode>, ghost info: Infos)
    returns (nodeMap: map<string, GraphNode>, nodes: seq<GraphNode>)
    requires info == Snapshot(all)
    modifies all
    ensures nodes == Firsts(all, info) && nodeMap.Keys == Names(all, info)
    ensures MergedSoFar(all, info, all)
  {
    hide Gathered, FirstNamed, Firsts, Names, MapsToFirsts, MergedSoFar;
    nodeMap, nodes := map[], [];
    MergeNone(all, info);
    for i := 0 to |all|
      invariant nodes == Firsts(all[..i], info)
      invariant MapsToFirsts(nodeMap, all[..i], info)
      invariant MergedSoFar(all, info, all[..i])
    {
      var node := all[i];
      FieldsOf(all, info, all[..i], node);
      MapNext(nodeMap, all, info, i);
      MergeNext(all, info, i);
      if node.name in nodeMap {
        MergeInto(nodeMap[node.name], node, all, info, i);
        continue;
      }
      SameFields(all, info, all[..i], all[..i + 1]);
      nodeMap := nodeMap[node.name := node];
      nodes := nodes + [node];
    }
    assert all[..|all|] == all;
    FirstsInMap(nodeMap, all, info);
  }

  /** The first node of a name takes over the attributes of a later one. */
  method MergeInto(existing: GraphNode, node: GraphNode, ghost all: seq<GraphNode>, ghost info: Infos, ghost i: nat)
    requires Known(all, info) && i < |all| && node == all[i]
    requires info[node].name in Names(all[..i], info) && existing == FirstNamed(all[..i], info, info[node].name)
    requires MergedSoFar(all, info, all[..i])
    modifies existing
    ensures MergedSoFar(all, info, all[..i + 1])
  {
    hide Gathered, FirstNamed, Firsts, Names;
    MergeNext(all, info, i);
    existing.attributes := existing.attributes + node.attributes;
  }

  lemma FieldsOf(all: seq<GraphNode>, info: Infos, seen: seq<GraphNode>, n: GraphNode)
    requires Known(all, info) && Known(seen, info) && MergedSoFar(all, info, seen) && n in all
    ensures n.name == info[n].name
  {
  }

  lemma SameFields(all: seq<GraphNode>, info: Infos, seen: seq<GraphNode>, more: seq<GraphNode>)
    requires Known(all, info) && Known(seen, info) && Known(more, info) && MergedSoFar(all, info, seen)
    requires forall n :: n in info ==> Gathered(more, info, n) == Gathered(seen, info, n)
    ensures MergedSoFar(all, info, more)
  {
    hide Gathered;
  }

  lemma FirstsInMap(nodeMap: map<string, GraphNode>, nodes: seq<GraphNode>, info: Infos)
    requires Known(nodes, info) && MapsToFirsts(nodeMap, nodes, info)
    ensures nodeMap.Keys == Names(nodes, info)
  {
  }

  lemma MapNext(nodeMap: map<string, GraphNode>, all: seq<GraphNode>, info: Infos, i: nat)
    requires Known(all, info) && i < |all| && Known(all[..i], info) && MapsToFirsts(nodeMap, all[..i], info)
    ensures var name := info[all[i]].name;
            && (name in nodeMap <==> name in Names(all[..i], info))
            && (name in nodeMap ==> nodeMap[name] == FirstNamed(all[..i], info, name))
            && MapsToFirsts(if name in nodeMap then nodeMap else nodeMap[name := all[i]], all[..i + 1], info)
  {
    hide Gathered, FirstNamed, Firsts, Names;
    MergeNext(all, info, i);
  }

  lemma MergeNone(all: seq<GraphNode>, info: Infos)
    requires info == Snapshot(all)
    ensures Firsts([], info) == [] && MapsToFirsts(map[], [], info) && MergedSoFar(all, info, [])
  {
  }

  lemma MergeNext(all: seq<GraphNode>, info: Infos, i: nat)
    requires Known(all, info) && i < |all|
    ensures Known(all[..i], info) && Known(all[..i + 1], info)
    ensures var before, last := all[..i], all[i];
            var name := info[last].name;
            && Names(all[..i + 1], info) == Names(before, info) + {name}
            && (name in Names(before, info) ==>
                  && Firsts(all[..i + 1], info) == Firsts(before, info)
                  && var f := FirstNamed(before, info, name);
                  && (forall n :: n in info && n != f ==> Gathered(all[..i + 1], info, n) == Gathered(before, info, n))
                  && Gathered(all[..i + 1], info, f) == Gathered(before, info, f) + Gathered(before, info, last))
            && (name !in Names(before, info) ==>
                  && Firsts(all[..i + 1], info) == Firsts(before, info) + [last]
                  && FirstNamed(all[..i + 1], info, name) == last
                  && forall n :: n in info ==> Gathered(all[..i + 1], info, n) == Gathered(before, info, n))
            && forall other :: other in Names(before, info) ==>
                 FirstNamed(all[..i + 1], info, other) == FirstNamed(before, info, other)
  {
    var upTo := all[..i + 1];
    assert upTo[..i] == all[..i];
    NamesNext(upTo, info);
    var before, last := all[..i], all[i];
    if info[last].name in Names(before, info) && FirstNamed(before, info, info[last].name) != last {
      OthersKeepTheirs(before, info, last);
    }
  }

  /** The loop over the relations. */
  method AddMissing(known: map<string, GraphNode>, rels: seq<Relation>)
    returns (added: seq<GraphNode>, kept: seq<Relation>)
    ensures kept == Loopless(rels)
    ensures (forall n :: n in added ==> fresh(n)) && AreNew(added, Unknown(known.Keys, Ends(kept)))
  {
    hide Unknown, Ends, Loopless, AreNew, Set, WithName;
    var nodeMap := known;
    added, kept := [], [];
    RelationNone(known.Keys);
    for i := 0 to |rels|
      invariant kept == Loopless(rels[..i])
      invariant (forall n :: n in added ==> fresh(n)) && AreNew(added, Unknown(known.Keys, Ends(kept)))
      invariant nodeMap.Keys == known.Keys + Set(Unknown(known.Keys, Ends(kept)))
    {
      var rel := rels[i];
      RelationNext(rels, i, kept, known.Keys);
      if rel.node1 == rel.node2 {
        continue;
      }
      ghost var names := Unknown(known.Keys, Ends(kept));
      added, nodeMap := Ensure(rel.node1, added, nodeMap, known.Keys, names);
      added, nodeMap := Ensure(rel.node2, added, nodeMap, known.Keys, WithName(known.Keys, names, rel.node1));
      kept := kept + [rel];
    }
    assert rels[..|rels|] == rels;
  }

  /** Make sure that there is a node of that name. */
  method Ensure(name: string, added: seq<GraphNode>, nodeMap: map<string, GraphNode>, ghost known: set<string>,
                ghost names: seq<string>)
    returns (nodes: seq<GraphNode>, more: map<string, GraphNode>)
    requires AreNew(added, names) && nodeMap.Keys == known + Set(names)
    ensures AreNew(nodes, WithName(known, names, name)) && more.Keys == known + Set(WithName(known, names, name))
    ensures forall n :: n in nodes ==> n in added || fresh(n)
  {
    nodes, more := added, nodeMap;
    if name !in nodeMap {
      var n := new GraphNode(name);
      nodes := added + [n];
      more := nodeMap[name := n];
    }
  }

  ghost predicate AreNew(added: seq<GraphNode>, names: seq<string>)
    reads added
  {
    && |added| == |names|
    && forall i :: 0 <= i < |added| ==>
         added[i].name == names[i] && added[i].kind == "" && added[i].chunks == [] && added[i].attributes == []
  }

  function Set(names: seq<string>): set<string> {
    set name | name in names
  }

  lemma RelationNone(known: set<string>)
    ensures Loopless([]) == [] && Unknown(known, Ends([])) == [] && AreNew([], []) && Set([]) == {}
  {
  }

  function WithName(known: set<string>, names: seq<string>, name: string): seq<string> {
    if name in known || name in names then names else names + [name]
  }

  lemma RelationNext(rels: seq<Relation>, i: nat, kept: seq<Relation>, known: set<string>)
    requires i < |rels| && kept == Loopless(rels[..i])
    ensures var rel := rels[i];
            var was := Unknown(known, Ends(kept));
            && Loopless(rels[..i + 1]) == (if rel.node1 == rel.node2 then kept else kept + [rel])
            && Unknown(known, Ends(kept + [rel])) == WithName(known, WithName(known, was, rel.node1), rel.node2)
  {
    hide Loopless, Unknown, Ends, WithName;
    var rel := rels[i];
    assert rels[..i + 1] == rels[..i] + [rel];
    LooplessNext(rels[..i], rel);
    EndsNext(kept, rel);
    UnknownNext(known, Ends(kept), rel.node1);
    UnknownNext(known, Ends(kept) + [rel.node1], rel.node2);
    assert Ends(kept) + [rel.node1] + [rel.node2] == Ends(kept) + [rel.node1, rel.node2];
  }

  lemma EndsNext(front: seq<Relation>, last: Relation)
    ensures Ends(front + [last]) == Ends(front) + [last.node1, last.node2]
  {
    assert (front + [last])[..|front|] == front;
  }

  lemma UnknownNext(known: set<string>, ends: seq<string>, name: string)
    ensures Unknown(known, ends + [name]) == WithName(known, Unknown(known, ends), name)
  {
    assert (ends + [name])[..|ends|] == ends;
  }

  method RebuildGraph(graph: GraphData)
    modifies graph, graph.node
    ensures graph.text == old(graph.text)
    ensures var was, info := old(graph.node), old(Snapshot(graph.node));
            var kept, missing := Firsts(was, info), Unknown(Names(was, info), Ends(graph.relation));
            && graph.relation == Loopless(old(graph.relation))
            && MergedSoFar(was, info, was)
            && kept <= graph.node && AreNew(graph.node[|kept|..], missing)
            && forall n :: n in graph.node[|kept|..] ==> fresh(n)
    ensures Clean(graph.node, Snapshot(graph.node), graph.relation)
  {
    hide Unknown, Ends, Loopless, Firsts, Gathered, FirstNamed, Clean;
    ghost var was, info := graph.node, Snapshot(graph.node);
    var nodeMap, nodes := MergeDuplicates(graph.node, info);
    var added, relations := AddMissing(nodeMap, graph.relation);
    graph.node := nodes + added;
    graph.relation := relations;
    assert graph.node[|nodes|..] == added;
    ResultIsClean(was, info, relations, old(graph.relation), nodes, added);
  }

  lemma ResultIsClean(was: seq<GraphNode>, info: Infos, rels: seq<Relation>, all: seq<Relation>,
                      nodes: seq<GraphNode>, added: seq<GraphNode>)
    requires Known(was, info) && rels == Loopless(all) && nodes == Firsts(was, info)
    requires MergedSoFar(was, info, was) && AreNew(added, Unknown(Names(was, info), Ends(rels)))
    ensures Clean(nodes + added, Snapshot(nodes + added), rels)
  {
    hide Unknown, Ends, Loopless, Firsts, Gathered, FirstNamed, Clean;
    var now, all' := nodes + added, Snapshot(nodes + added);
    FirstsUnique(was, info);
    FirstsAreFirst(was, info);
    LooplessMeets(all);
    EndsMeet(rels);
    UnknownMeets(Names(was, info), Ends(rels));
    forall i | 0 <= i < |nodes| ensures nodes[i] in was && all'[nodes[i]].name == info[nodes[i]].name {
      assert nodes[i] in nodes;
    }
    NamesTogether(was, info, nodes, added, Unknown(Names(was, info), Ends(rels)));
    CleanParts(now, all', rels);
  }

  lemma NamesTogether(was: seq<GraphNode>, info: Infos, nodes: seq<GraphNode>, added: seq<GraphNode>,
                      names: seq<string>)
    requires Known(was, info) && Known(nodes, info) && UniqueNames(nodes, info)
              && Names(nodes, info) == Names(was, info)
    requires forall n :: n in nodes ==> n.name == info[n].name
    requires AreNew(added, names) && NoDup(names) && forall name :: name in names ==> name !in Names(was, info)
    ensures UniqueNames(nodes + added, Snapshot(nodes + added))
    ensures Names(nodes + added, Snapshot(nodes + added)) == Names(was, info) + Set(names)
  {
    var now := nodes + added;
    var snap := Snapshot(now);
    forall i, j | 0 <= i < j < |now| ensures snap[now[i]].name != snap[now[j]].name {
      if j >= |nodes| {
        assert now[j].name == names[j - |nodes|];
        if i < |nodes| {
          assert nodes[i] in nodes && now[i].name in Names(nodes, info);
        } else {
          assert now[i].name == names[i - |nodes|];
        }
      } else {
        assert nodes[i] in nodes && nodes[j] in nodes;
      }
    }
    forall name ensures name in Names(now, snap) <==> name in Names(was, info) + Set(names) {
      if name in Names(nodes, info) {
        var n :| n in nodes && info[n].name == name;
        assert n in now;
      } else if name in names {
        var i :| 0 <= i < |names| && names[i] == name;
        assert added[i] in now && snap[added[i]].name == name;
      }
    }
  }
}
