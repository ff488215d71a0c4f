/**
 The bounded depth-first walk that reads an aggregate out of an arbitrary parent/child
 graph, and the unfolding it is measured against.
 Models src/wbcz/aggregation.py, build_aggregate_tree.
 */
module AggregateTree {
  import opened Common

  type Edge = (string, string)

  datatype Node = Node(cis: string, packageType: Option<string>, children: seq<Node>)

  /** The two read-only callbacks of the caller. */
  datatype Catalog = Catalog(directChildren: string -> seq<string>, packageTypeOf: string -> Option<string>)

  datatype Warning =
    | UnknownRawPackageType(raw: Option<string>) | InternalSafetyLimit | CycleDetected | DuplicateEdgeDropped

  datatype TreeError = InvalidRootCode

  const INTERNAL_SAFETY_MAX_TREE_DEPTH := 32

  predicate KnownType(packageType: Option<string>) {
    packageType in {Some("UNIT"), Some("GROUP"), Some("BUNDLE"), Some("SET"), Some("BOX"), Some("ATK")}
  }

  // ---------- The unfolding, as a relation ----------

  /** t lists, at every node, exactly the direct children of that node, in order. */
  ghost predicate IsUnfolding(g: Catalog, t: Node) {
    && t.packageType == g.packageTypeOf(t.cis)
    && |t.children| == |g.directChildren(t.cis)|
    && forall i :: 0 <= i < |t.children| ==>
         t.children[i].cis == g.directChildren(t.cis)[i] && IsUnfolding(g, t.children[i])
  }

  function Height(t: Node): nat {
    HeightAll(t.children)
  }

  /** One more than the greatest height, or 0 when there is none. */
  function HeightAll(ts: seq<Node>): nat {
    if ts == [] then 0
    else
      var rest, last := HeightAll(ts[..|ts| - 1]), 1 + Height(ts[|ts| - 1]);
      if rest < last then last else rest
  }

  function Edges(t: Node): seq<Edge> {
    EdgesAll(t.cis, t.children)
  }

  function EdgesAll(parent: string, ts: seq<Node>): seq<Edge>
    decreases ts
  {
    if ts == [] then []
    else
      var last := ts[|ts| - 1];
      EdgesAll(parent, ts[..|ts| - 1]) + [(parent, last.cis)] + Edges(last)
  }

  function Codes(t: Node): set<string> {
    {t.cis} + CodesAll(t.children)
  }

  function CodesAll(ts: seq<Node>): set<string> {
    if ts == [] then {} else CodesAll(ts[..|ts| - 1]) + Codes(ts[|ts| - 1])
  }

  predicate AllKnown(t: Node) {
    KnownType(t.packageType) && forall i :: 0 <= i < |t.children| ==> AllKnown(t.children[i])
  }

  ghost predicate NoRepeat(s: seq<Edge>) {
    forall i, j :: 0 <= i < j < |s| ==> s[i] != s[j]
  }

  ghost function Elements(s: seq<Edge>): set<Edge> {
    set e | e in s
  }

  lemma PartsOfNoRepeat(a: seq<Edge>, b: seq<Edge>)
    requires NoRepeat(a + b)
    ensures NoRepeat(a) && NoRepeat(b) && Elements(a) !! Elements(b)
  {
    var ab := a + b;
    assert forall i :: 0 <= i < |a| ==> ab[i] == a[i];
    assert forall i :: 0 <= i < |b| ==> ab[|a| + i] == b[i];
    forall i, j | 0 <= i < |a| && 0 <= j < |b| ensures a[i] != b[j] {
      assert ab[i] != ab[|a| + j];
    }
  }

  lemma NoRepeatOfParts(a: seq<Edge>, b: seq<Edge>)
    requires NoRepeat(a) && NoRepeat(b) && Elements(a) !! Elements(b)
    ensures NoRepeat(a + b)
  {
    var ab := a + b;
    forall i, j | 0 <= i < j < |ab| ensures ab[i] != ab[j] {
      if i < |a| <= j {
        assert a[i] in Elements(a) && b[j - |a|] in Elements(b);
      }
    }
  }

  lemma NoRepeatConcat(a: seq<Edge>, b: seq<Edge>)
    ensures NoRepeat(a + b) <==> NoRepeat(a) && NoRepeat(b) && Elements(a) !! Elements(b)
    ensures Elements(a + b) == Elements(a) + Elements(b)
  {
    if NoRepeat(a + b) {
      PartsOfNoRepeat(a, b);
    }
    if NoRepeat(a) && NoRepeat(b) && Elements(a) !! Elements(b) {
      NoRepeatOfParts(a, b);
    }
  }

  lemma {:induction false} HeightBelow(ts: seq<Node>, i: nat)
    requires i < |ts|
    ensures Height(ts[i]) < HeightAll(ts)
  {
    if i < |ts| - 1 {
      HeightBelow(ts[..|ts| - 1], i);
    }
  }

  /** A code has at most one unfolding. */
  lemma {:induction false} UnfoldingIsUnique(g: Catalog, a: Node, b: Node)
    requires IsUnfolding(g, a) && IsUnfolding(g, b) && a.cis == b.cis
    ensures a == b
  {
    forall i | 0 <= i < |a.children| ensures a.children[i] == b.children[i] {
      UnfoldingIsUnique(g, a.children[i], b.children[i]);
    }
  }

  lemma {:induction false} FindAmong(g: Catalog, ts: seq<Node>, cis: string) returns (d: Node)
    requires cis in CodesAll(ts) && forall i :: 0 <= i < |ts| ==> IsUnfolding(g, ts[i])
    ensures IsUnfolding(g, d) && d.cis == cis && Height(d) < HeightAll(ts)
  {
    var n := |ts| - 1;
    if cis in CodesAll(ts[..n]) {
      d := FindAmong(g, ts[..n], cis);
    } else if cis == ts[n].cis {
      d := ts[n];
    } else {
      d := FindAmong(g, ts[n].children, cis);
    }
  }

  /** A finite unfolding never contains its own root below the root. */
  lemma RootDoesNotRecur(g: Catalog, t: Node)
    requires IsUnfolding(g, t)
    ensures t.cis !in CodesAll(t.children)
  {
    if t.cis in CodesAll(t.children) {
      var d := FindAmong(g, t.children, t.cis);
      UnfoldingIsUnique(g, d, t);
    }
  }

  // ---------- The unfolding, computed within a height ----------

  function Unfold(g: Catalog, cis: string, limit: int): Option<Node>
    decreases if limit < 0 then 0 else limit + 1, 0
  {
    if limit < 0 then None
    else match UnfoldAll(g, g.directChildren(cis), limit - 1)
      case None => None
      case Some(ts) => Some(Node(cis, g.packageTypeOf(cis), ts))
  }

  function UnfoldAll(g: Catalog, cs: seq<string>, limit: int): Option<seq<Node>>
    decreases if limit < 0 then 0 else limit + 1, 1 + |cs|
  {
    if cs == [] then Some([])
    else
      var rest := UnfoldAll(g, cs[..|cs| - 1], limit);
      var last := Unfold(g, cs[|cs| - 1], limit);
      if rest.Some? && last.Some? then Some(rest.value + [last.value]) else None
  }

  lemma {:induction false} UnfoldIsUnfolding(g: Catalog, cis: string, limit: int)
    ensures var u := Unfold(g, cis, limit);
            u.Some? ==> IsUnfolding(g, u.value) && u.value.cis == cis && Height(u.value) <= limit
    decreases if limit < 0 then 0 else limit + 1, 0
  {
    if limit >= 0 {
      UnfoldAllIsUnfolding(g, g.directChildren(cis), limit - 1);
    }
  }

  lemma {:induction false} UnfoldAllIsUnfolding(g: Catalog, cs: seq<string>, limit: int)
    ensures var u := UnfoldAll(g, cs, limit);
            u.Some? ==>
              && |u.value| == |cs|
              && HeightAll(u.value) <= (if limit < 0 then 0 else limit + 1)
              && forall i :: 0 <= i < |cs| ==> u.value[i].cis == cs[i] && IsUnfolding(g, u.value[i])
    decreases if limit < 0 then 0 else limit + 1, 1 + |cs|
  {
    if cs != [] {
      UnfoldAllIsUnfolding(g, cs[..|cs| - 1], limit);
      UnfoldIsUnfolding(g, cs[|cs| - 1], limit);
      var u := UnfoldAll(g, cs, limit);
      if u.Some? {
        assert u.value[..|cs| - 1] == UnfoldAll(g, cs[..|cs| - 1], limit).value;
      }
    }
  }

  /** Every unfolding of height at most limit is the computed one. */
  lemma {:induction false} UnfoldingIsComputed(g: Catalog, t: Node, limit: int)
    requires IsUnfolding(g, t) && Height(t) <= limit
    ensures Unfold(g, t.cis, limit) == Some(t)
    decreases t, |t.children| + 1
  {
    UnfoldingsAreComputed(g, t, |t.children|, limit - 1);
    assert t.children[..|t.children|] == t.children;
    assert g.directChildren(t.cis)[..|t.children|] == g.directChildren(t.cis);
  }

  lemma {:induction false} UnfoldingsAreComputed(g: Catalog, t: Node, n: nat, limit: int)
    requires IsUnfolding(g, t) && Height(t) <= limit + 1 && n <= |t.children|
    ensures UnfoldAll(g, g.directChildren(t.cis)[..n], limit) == Some(t.children[..n])
    decreases t, n
  {
    if n > 0 {
      UnfoldingsAreComputed(g, t, n - 1, limit);
      HeightBelow(t.children, n - 1);
      UnfoldingIsComputed(g, t.children[n - 1], limit);
      assert g.directChildren(t.cis)[..n][..n - 1] == g.directChildren(t.cis)[..n - 1];
      assert t.children[..n] == t.children[..n - 1] + [t.children[n - 1]];
    }
  }

  // ---------- What the walk finds clean ----------

  /** The unfolding fits under the limit, and meets neither the open path nor an edge already seen. */
  ghost predicate Fits(g: Catalog, cis: string, limit: int, visiting: set<string>, seen: set<Edge>) {
    var u := Unfold(g, cis, limit);
    u.Some? && AllKnown(u.value) && NoRepeat(Edges(u.value)) && Elements(Edges(u.value)) !! seen
    && Codes(u.value) !! visiting
  }

  ghost predicate FitsAll(g: Catalog, parent: string, cs: seq<string>, limit: int, visiting: set<string>,
                          seen: set<Edge>)
  {
    var u := UnfoldAll(g, cs, limit);
    u.Some? && (forall i :: 0 <= i < |u.value| ==> AllKnown(u.value[i]))
    && NoRepeat(EdgesAll(parent, u.value)) && Elements(EdgesAll(parent, u.value)) !! seen
    && CodesAll(u.value) !! visiting
  }

  lemma FitsNothing(g: Catalog, parent: string, limit: int, visiting: set<string>, seen: set<Edge>)
    ensures FitsAll(g, parent, [], limit, visiting, seen) && UnfoldAll(g, [], limit) == Some([])
    ensures Took(EdgesAll(parent, []), seen, seen)
  {
  }

  /** The edges taken, each once and none taken before, are exactly the new ones in after. */
  ghost predicate Took(edges: seq<Edge>, before: set<Edge>, after: set<Edge>) {
    NoRepeat(edges) && Elements(edges) !! before && after == before + Elements(edges)
  }

  lemma FitsOneMore(g: Catalog, parent: string, cs: seq<string>, limit: int, visiting: set<string>,
                    seen0: set<Edge>, seen: set<Edge>, children: seq<Node>)
    requires cs != [] && Took(EdgesAll(parent, children), seen0, seen)
    requires var before := cs[..|cs| - 1];
             FitsAll(g, parent, before, limit, visiting, seen0) ==> UnfoldAll(g, before, limit) == Some(children)
    ensures var before, child := cs[..|cs| - 1], cs[|cs| - 1];
            FitsAll(g, parent, cs, limit, visiting, seen0) <==>
              FitsAll(g, parent, before, limit, visiting, seen0)
              && (parent, child) !in seen && Fits(g, child, limit, visiting, seen + {(parent, child)})
    ensures var before, child := cs[..|cs| - 1], cs[|cs| - 1];
            FitsAll(g, parent, cs, limit, visiting, seen0) ==>
              UnfoldAll(g, cs, limit) == Some(children + [Unfold(g, child, limit).value])
  {
    hide Edges, EdgesAll, Codes, CodesAll, AllKnown, NoRepeat, Unfold;
    var n := |cs| - 1;
    var v, last := UnfoldAll(g, cs[..n], limit), Unfold(g, cs[n], limit);
    if v.Some? && last.Some? {
      UnfoldIsUnfolding(g, cs[n], limit);
      ExtendEdges(parent, v.value, last.value);
      ExtendNodes(v.value, last.value);
    }
  }

  lemma ExtendNodes(ts: seq<Node>, t: Node)
    ensures var us := ts + [t];
            && ((forall i :: 0 <= i < |us| ==> AllKnown(us[i])) <==>
                  (forall i :: 0 <= i < |ts| ==> AllKnown(ts[i])) && AllKnown(t))
            && CodesAll(us) == CodesAll(ts) + Codes(t)
  {
    var us := ts + [t];
    assert us[..|us| - 1] == ts && us[|us| - 1] == t;
    assert forall i :: 0 <= i < |ts| ==> us[i] == ts[i];
  }

  lemma ExtendEdges(parent: string, ts: seq<Node>, t: Node)
    ensures var a := EdgesAll(parent, ts);
            Elements(EdgesAll(parent, ts + [t])) == Elements(a) + {(parent, t.cis)} + Elements(Edges(t))
            && (NoRepeat(EdgesAll(parent, ts + [t])) <==>
                  NoRepeat(a) && NoRepeat(Edges(t)) && (parent, t.cis) !in Elements(a)
                  && Elements(a) + {(parent, t.cis)} !! Elements(Edges(t)))
  {
    var us := ts + [t];
    assert us[..|us| - 1] == ts && us[|us| - 1] == t;
    var a, b, c := EdgesAll(parent, ts), [(parent, t.cis)], Edges(t);
    NoRepeatConcat(a, b);
    NoRepeatConcat(a + b, c);
    assert Elements(b) == {(parent, t.cis)};
  }

  lemma TookOneMore(parent: string, ts: seq<Node>, t: Node, before: set<Edge>, mid: set<Edge>, after: set<Edge>)
    requires Took(EdgesAll(parent, ts), before, mid) && (parent, t.cis) !in mid
    requires Took(Edges(t), mid + {(parent, t.cis)}, after)
    ensures Took(EdgesAll(parent, ts + [t]), before, after)
    ensures |EdgesAll(parent, ts + [t])| == |EdgesAll(parent, ts)| + 1 + |Edges(t)|
  {
    assert (ts + [t])[..|ts|] == ts;
    ExtendEdges(parent, ts, t);
  }

  lemma FitsFromChildren(g: Catalog, cis: string, limit: int, visiting: set<string>, seen: set<Edge>)
    ensures Fits(g, cis, limit, visiting, seen) <==>
              limit >= 0 && cis !in visiting && KnownType(g.packageTypeOf(cis))
              && FitsAll(g, cis, g.directChildren(cis), limit - 1, visiting + {cis}, seen)
    ensures limit >= 0 && UnfoldAll(g, g.directChildren(cis), limit - 1).Some? ==>
              Unfold(g, cis, limit) ==
                Some(Node(cis, g.packageTypeOf(cis), UnfoldAll(g, g.directChildren(cis), limit - 1).value))
  {
    var u := Unfold(g, cis, limit);
    if u.Some? {
      UnfoldIsUnfolding(g, cis, limit);
      RootDoesNotRecur(g, u.value);
    }
  }

  // ---------- The walk ----------

  /** Every node carries its own package type, and every edge is an edge of the graph. */
  ghost predicate OnlyRealEdges(g: Catalog, t: Node) {
    && t.packageType == g.packageTypeOf(t.cis)
    && forall i :: 0 <= i < |t.children| ==>
         t.children[i].cis in g.directChildren(t.cis) && OnlyRealEdges(g, t.children[i])
  }

  // ---------- What the walk reads, complete or not ----------

  /**
   t is what a depth-first reading finds: a node below the limit or on the open path has no children, and any other
   has each of its direct children in order, except those whose edge was used before, here or elsewhere.
   */
  ghost predicate Explores(g: Catalog, t: Node, left: int, path: set<string>, seen: set<Edge>)
    decreases t, 0
  {
    && t.packageType == g.packageTypeOf(t.cis)
    && if left < 0 || t.cis in path then t.children == []
       else ExploresAll(g, t.cis, g.directChildren(t.cis), t.children, left - 1, path + {t.cis}, seen)
  }

  ghost predicate ExploresAll(g: Catalog, parent: string, cs: seq<string>, ts: seq<Node>, left: int, path: set<string>,
                              seen: set<Edge>)
    decreases ts, |cs|
  {
    if cs == [] then ts == []
    else
      var before, edge := cs[..|cs| - 1], (parent, cs[|cs| - 1]);
      if edge in seen + Elements(EdgesAll(parent, ts)) && ExploresAll(g, parent, before, ts, left, path, seen) then true
      else
        && ts != []
        && var rest, last := ts[..|ts| - 1], ts[|ts| - 1];
        var used := seen + Elements(EdgesAll(parent, rest));
        && last.cis == cs[|cs| - 1] && edge !in used
        && ExploresAll(g, parent, before, rest, left, path, seen) && Explores(g, last, left, path, used + {edge})
  }

  lemma ExploresDropped(g: Catalog, parent: string, cs: seq<string>, ts: seq<Node>, left: int, path: set<string>,
                        seen: set<Edge>)
    requires cs != [] && ExploresAll(g, parent, cs[..|cs| - 1], ts, left, path, seen)
    requires (parent, cs[|cs| - 1]) in seen + Elements(EdgesAll(parent, ts))
    ensures ExploresAll(g, parent, cs, ts, left, path, seen)
  {
  }

  lemma ExploresTaken(g: Catalog, parent: string, cs: seq<string>, ts: seq<Node>, t: Node, left: int,
                      path: set<string>, seen: set<Edge>)
    requires cs != [] && ExploresAll(g, parent, cs[..|cs| - 1], ts, left, path, seen) && t.cis == cs[|cs| - 1]
    requires (parent, t.cis) !in seen + Elements(EdgesAll(parent, ts))
    requires Explores(g, t, left, path, seen + Elements(EdgesAll(parent, ts)) + {(parent, t.cis)})
    ensures ExploresAll(g, parent, cs, ts + [t], left, path, seen)
  {
    hide Explores, EdgesAll;
    var us := ts + [t];
    assert us[..|us| - 1] == ts && us[|us| - 1] == t;
  }

  lemma ExploresNothing(g: Catalog, parent: string, left: int, path: set<string>, seen: set<Edge>)
    ensures ExploresAll(g, parent, [], [], left, path, seen) && CausesAll(g, [], left, path) == multiset{}
  {
  }

  lemma TookUsed(parent: string, ts: seq<Node>, before: set<Edge>, after: set<Edge>)
    requires Took(EdgesAll(parent, ts), before, after)
    ensures after == before + Elements(EdgesAll(parent, ts))
  {
  }

  function OwnCause(packageType: Option<string>): multiset<Warning> {
    if KnownType(packageType) then multiset{} else multiset{UnknownRawPackageType(packageType)}
  }

  /** Every warning with its cause: one for each unknown type, node below the limit, closed cycle and edge left out. */
  ghost function Causes(g: Catalog, t: Node, left: int, path: set<string>): multiset<Warning>
    decreases t, 0
  {
    OwnCause(t.packageType)
    + if left < 0 then multiset{InternalSafetyLimit}
      else if t.cis in path then multiset{CycleDetected}
      else Dropped(|g.directChildren(t.cis)| - |t.children|) + CausesAll(g, t.children, left - 1, path + {t.cis})
  }

  ghost function CausesAll(g: Catalog, ts: seq<Node>, left: int, path: set<string>): multiset<Warning>
    decreases ts, 0
  {
    if ts == [] then multiset{}
    else CausesAll(g, ts[..|ts| - 1], left, path) + Causes(g, ts[|ts| - 1], left, path)
  }

  ghost function Dropped(n: int): multiset<Warning> {
    multiset{}[DuplicateEdgeDropped := if n < 0 then 0 else n]
  }

  lemma CausesSnoc(g: Catalog, ts: seq<Node>, t: Node, left: int, path: set<string>)
    ensures CausesAll(g, ts + [t], left, path) == CausesAll(g, ts, left, path) + Causes(g, t, left, path)
  {
    hide Causes;
    assert (ts + [t])[..|ts|] == ts;
  }

  lemma {:induction false} ExploresCounts(g: Catalog, parent: string, cs: seq<string>, ts: seq<Node>, left: int,
                                          path: set<string>, seen: set<Edge>)
    requires ExploresAll(g, parent, cs, ts, left, path, seen)
    ensures |ts| <= |cs|
    decreases |cs|
  {
    hide Explores, EdgesAll;
    if cs != [] {
      var before, edge := cs[..|cs| - 1], (parent, cs[|cs| - 1]);
      if edge in seen + Elements(EdgesAll(parent, ts)) && ExploresAll(g, parent, before, ts, left, path, seen) {
        ExploresCounts(g, parent, before, ts, left, path, seen);
      } else {
        ExploresCounts(g, parent, before, ts[..|ts| - 1], left, path, seen);
      }
    }
  }

  lemma SumIsEmpty(a: multiset<Warning>, b: multiset<Warning>)
    ensures a + b == multiset{} <==> a == multiset{} && b == multiset{}
  {
    assert |a + b| == |a| + |b|;
  }

  lemma NothingDropped(n: int)
    ensures Dropped(n) == multiset{} <==> n <= 0
  {
    assert Dropped(n)[DuplicateEdgeDropped] == if n < 0 then 0 else n;
  }

  /** The warnings of after beyond before: so many edges left out, and the causes. */
  ghost predicate Accounts(before: seq<Warning>, after: seq<Warning>, dropped: nat, causes: multiset<Warning>) {
    before <= after && multiset(after) == multiset(before) + (Dropped(dropped) + causes)
  }

  lemma AccountsNothing(warnings: seq<Warning>)
    ensures Accounts(warnings, warnings, 0, multiset{})
  {
    NothingDropped(0);
  }

  lemma AccountsOne(before: seq<Warning>, after: seq<Warning>, causes: multiset<Warning>, warning: Warning)
    requires Accounts(before, after, 0, causes)
    ensures Accounts(before, after + [warning], 0, causes + multiset{warning})
  {
    NothingDropped(0);
  }

  lemma AccountsOwn(warnings: seq<Warning>, packageType: Option<string>)
    ensures var after := warnings + if KnownType(packageType) then [] else [UnknownRawPackageType(packageType)];
            Accounts(warnings, after, 0, OwnCause(packageType))
  {
    NothingDropped(0);
    if KnownType(packageType) {
      assert warnings + [] == warnings;
    }
  }

  lemma AccountsDropped(before: seq<Warning>, after: seq<Warning>, dropped: nat, causes: multiset<Warning>)
    requires Accounts(before, after, dropped, causes)
    ensures Accounts(before, after + [DuplicateEdgeDropped], dropped + 1, causes)
  {
    assert Dropped(dropped + 1) == Dropped(dropped) + multiset{DuplicateEdgeDropped};
  }

  lemma AccountsNode(before: seq<Warning>, middle: seq<Warning>, after: seq<Warning>, dropped: nat,
                     causes: multiset<Warning>, more: multiset<Warning>)
    requires Accounts(before, middle, dropped, causes) && Accounts(middle, after, 0, more)
    ensures Accounts(before, after, dropped, causes + more)
  {
    NothingDropped(0);
  }

  lemma AccountsChildren(before: seq<Warning>, middle: seq<Warning>, after: seq<Warning>, own: multiset<Warning>,
                         dropped: nat, causes: multiset<Warning>)
    requires Accounts(before, middle, 0, own) && Accounts(middle, after, dropped, causes)
    ensures Accounts(before, after, 0, own + (Dropped(dropped) + causes))
  {
    NothingDropped(0);
  }

  lemma AccountsMeans(before: seq<Warning>, after: seq<Warning>, causes: multiset<Warning>)
    requires Accounts(before, after, 0, causes)
    ensures before <= after && multiset(after) == multiset(before) + causes
    ensures after == before <==> causes == multiset{}
  {
    NothingDropped(0);
    assert |multiset(after)| == |after| && |multiset(before)| == |before|;
  }

  /** A reading takes no cause for warning exactly when the unfolding fits, and then it is the unfolding. */
  lemma {:induction false} CleanIffFits(g: Catalog, t: Node, left: int, path: set<string>, seen: set<Edge>)
    requires Explores(g, t, left, path, seen) && NoRepeat(Edges(t)) && Elements(Edges(t)) !! seen
    ensures Causes(g, t, left, path) == multiset{} <==> Fits(g, t.cis, left, path, seen)
    ensures Causes(g, t, left, path) == multiset{} ==> Unfold(g, t.cis, left) == Some(t)
    decreases t, 0
  {
    hide Fits, FitsAll, Unfold, UnfoldAll, ExploresAll, CausesAll, NoRepeat, Dropped;
    FitsFromChildren(g, t.cis, left, path, seen);
    var own := OwnCause(t.packageType);
    if left < 0 {
      SumIsEmpty(own, multiset{InternalSafetyLimit});
    } else if t.cis in path {
      SumIsEmpty(own, multiset{CycleDetected});
    } else {
      var dropped := |g.directChildren(t.cis)| - |t.children|;
      SumIsEmpty(own, Dropped(dropped) + CausesAll(g, t.children, left - 1, path + {t.cis}));
      SumIsEmpty(Dropped(dropped), CausesAll(g, t.children, left - 1, path + {t.cis}));
      NothingDropped(dropped);
      ExploresCounts(g, t.cis, g.directChildren(t.cis), t.children, left - 1, path + {t.cis}, seen);
      CleanAllIffFits(g, t.cis, g.directChildren(t.cis), t.children, left - 1, path + {t.cis}, seen);
    }
  }

  lemma {:induction false} CleanAllIffFits(g: Catalog, parent: string, cs: seq<string>, ts: seq<Node>, left: int,
                                           path: set<string>, seen: set<Edge>)
    requires ExploresAll(g, parent, cs, ts, left, path, seen)
    requires NoRepeat(EdgesAll(parent, ts)) && Elements(EdgesAll(parent, ts)) !! seen
    ensures |ts| == |cs| && CausesAll(g, ts, left, path) == multiset{} <==> FitsAll(g, parent, cs, left, path, seen)
    ensures |ts| == |cs| && CausesAll(g, ts, left, path) == multiset{} ==> UnfoldAll(g, cs, left) == Some(ts)
    decreases ts, |cs|
  {
    hide Fits, FitsAll, Unfold, UnfoldAll, Explores, Causes, NoRepeat, Edges, EdgesAll;
    FitsNothing(g, parent, left, path, seen);
    if cs != [] {
      var before, child := cs[..|cs| - 1], cs[|cs| - 1];
      if (parent, child) in seen + Elements(EdgesAll(parent, ts))
        && ExploresAll(g, parent, before, ts, left, path, seen) {
        ExploresCounts(g, parent, before, ts, left, path, seen);
        CleanAllIffFits(g, parent, before, ts, left, path, seen);
        FitsOneMoreOf(g, parent, cs, left, path, seen, ts);
      } else {
        var rest, last := ts[..|ts| - 1], ts[|ts| - 1];
        SplitEdges(parent, ts, seen);
        ExploresCounts(g, parent, before, rest, left, path, seen);
        CleanAllIffFits(g, parent, before, rest, left, path, seen);
        CleanIffFits(g, last, left, path, seen + Elements(EdgesAll(parent, rest)) + {(parent, child)});
        FitsOneMoreOf(g, parent, cs, left, path, seen, rest);
        assert ts == rest + [last];
      }
    }
  }

  /** FitsOneMore, after the edges of the children read so far. */
  lemma FitsOneMoreOf(g: Catalog, parent: string, cs: seq<string>, limit: int, visiting: set<string>,
                      seen0: set<Edge>, children: seq<Node>)
    requires cs != [] && NoRepeat(EdgesAll(parent, children)) && Elements(EdgesAll(parent, children)) !! seen0
    requires var before := cs[..|cs| - 1];
             FitsAll(g, parent, before, limit, visiting, seen0) ==> UnfoldAll(g, before, limit) == Some(children)
    ensures var before, child := cs[..|cs| - 1], cs[|cs| - 1];
            var seen := seen0 + Elements(EdgesAll(parent, children));
            FitsAll(g, parent, cs, limit, visiting, seen0) <==>
              FitsAll(g, parent, before, limit, visiting, seen0)
              && (parent, child) !in seen && Fits(g, child, limit, visiting, seen + {(parent, child)})
    ensures FitsAll(g, parent, cs, limit, visiting, seen0) ==>
              UnfoldAll(g, cs, limit) == Some(children + [Unfold(g, cs[|cs| - 1], limit).value])
  {
    hide Fits, FitsAll, Unfold, UnfoldAll, EdgesAll;
    FitsOneMore(g, parent, cs, limit, visiting, seen0, seen0 + Elements(EdgesAll(parent, children)), children);
  }

  lemma SplitEdges(parent: string, ts: seq<Node>, seen: set<Edge>)
    requires ts != [] && NoRepeat(EdgesAll(parent, ts)) && Elements(EdgesAll(parent, ts)) !! seen
    ensures var rest, last := ts[..|ts| - 1], ts[|ts| - 1];
            && NoRepeat(EdgesAll(parent, rest)) && Elements(EdgesAll(parent, rest)) !! seen
            && NoRepeat(Edges(last))
            && Elements(Edges(last)) !! seen + Elements(EdgesAll(parent, rest)) + {(parent, last.cis)}
  {
    hide Edges;
    var rest, last := ts[..|ts| - 1], ts[|ts| - 1];
    assert ts == rest + [last];
    ExtendEdges(parent, rest, last);
  }

  lemma {:induction false} ExploresOnlyRealEdges(g: Catalog, t: Node, left: int, path: set<string>, seen: set<Edge>)
    requires Explores(g, t, left, path, seen)
    ensures OnlyRealEdges(g, t)
    decreases t, 0
  {
    hide ExploresAll;
    if left >= 0 && t.cis !in path {
      AllOnlyRealEdges(g, t.cis, g.directChildren(t.cis), t.children, left - 1, path + {t.cis}, seen);
    }
  }

  lemma {:induction false} AllOnlyRealEdges(g: Catalog, parent: string, cs: seq<string>, ts: seq<Node>, left: int,
                                            path: set<string>, seen: set<Edge>)
    requires ExploresAll(g, parent, cs, ts, left, path, seen)
    ensures forall i :: 0 <= i < |ts| ==> ts[i].cis in cs && OnlyRealEdges(g, ts[i])
    decreases ts, |cs|
  {
    hide Explores, EdgesAll, OnlyRealEdges;
    if cs != [] {
      var before, edge := cs[..|cs| - 1], (parent, cs[|cs| - 1]);
      if edge in seen + Elements(EdgesAll(parent, ts)) && ExploresAll(g, parent, before, ts, left, path, seen) {
        AllOnlyRealEdges(g, parent, before, ts, left, path, seen);
      } else {
        var rest, last := ts[..|ts| - 1], ts[|ts| - 1];
        AllOnlyRealEdges(g, parent, before, rest, left, path, seen);
        ExploresOnlyRealEdges(g, last, left, path, seen + Elements(EdgesAll(parent, rest)) + {edge});
      }
    }
  }

  class TreeWalk {
    const g: Catalog
    const safetyMaxDepth: int
    var visiting: set<string>
    var seenEdges: set<Edge>
    var warnings: seq<Warning>
    var truncated: bool
    var incomplete: bool
    ghost var calls: nat

    constructor (g: Catalog, safetyMaxDepth: int)
      ensures this.g == g && this.safetyMaxDepth == safetyMaxDepth
      ensures visiting == {} && seenEdges == {} && warnings == [] && !truncated && !incomplete && calls == 0
    {
      this.g, this.safetyMaxDepth := g, safetyMaxDepth;
      visiting, seenEdges, warnings, truncated, incomplete, calls := {}, {}, [], false, false, 0;
    }

    /** The flags say what the warnings say. */
    ghost predicate Flagged()
      reads this`warnings, this`truncated, this`incomplete
    {
      && (incomplete <==> warnings != [])
      && (truncated <==> InternalSafetyLimit in warnings)
    }

    method Walk(cis: string, depth: int) returns (node: Node)
      requires Flagged()
      modifies this
      ensures Flagged() && visiting == old(visiting)
      ensures old(warnings) <= warnings
      ensures node.cis == cis && OnlyRealEdges(g, node)
      ensures Took(Edges(node), old(seenEdges), seenEdges)
      ensures calls - |seenEdges| == old(calls) + 1 - old(|seenEdges|)
      ensures Explores(g, node, safetyMaxDepth - depth, old(visiting), old(seenEdges))
      ensures multiset(warnings) == multiset(old(warnings)) + Causes(g, node, safetyMaxDepth - depth, old(visiting))
      ensures warnings == old(warnings) <==> Fits(g, cis, safetyMaxDepth - depth, old(visiting), old(seenEdges))
      ensures warnings == old(warnings) ==> Unfold(g, cis, safetyMaxDepth - depth) == Some(node)
      decreases if depth > safetyMaxDepth then 0 else safetyMaxDepth + 1 - depth, 1
    {
      hide Fits, Unfold, OnlyRealEdges, Explores, Causes, Accounts, Took;
      node := Visit(cis, depth);
      ExploresOnlyRealEdges(g, node, safetyMaxDepth - depth, visiting, old(seenEdges));
      TookCounts(Edges(node), old(seenEdges), seenEdges);
      CleanIffFits(g, node, safetyMaxDepth - depth, visiting, old(seenEdges));
      AccountsMeans(old(warnings), warnings, Causes(g, node, safetyMaxDepth - depth, visiting));
    }

    /** One more warning, and the flags that go with it. */
    method Warn(warning: Warning)
      requires Flagged()
      modifies `warnings, `truncated, `incomplete
      ensures Flagged() && warnings == old(warnings) + [warning]
    {
      warnings := warnings + [warning];
      incomplete := true;
      if warning == InternalSafetyLimit {
        truncated := true;
      }
    }

    /** The body of walk. */
    method Visit(cis: string, depth: int) returns (node: Node)
      requires Flagged()
      modifies this
      ensures Flagged() && visiting == old(visiting)
      ensures node.cis == cis && Took(Edges(node), old(seenEdges), seenEdges)
      ensures calls == old(calls) + 1 + |Edges(node)|
      ensures Explores(g, node, safetyMaxDepth - depth, old(visiting), old(seenEdges))
      ensures Accounts(old(warnings), warnings, 0, Causes(g, node, safetyMaxDepth - depth, old(visiting)))
      decreases if depth > safetyMaxDepth then 0 else safetyMaxDepth + 1 - depth, 0
    {
      hide EdgesAll, Took, ExploresAll, CausesAll, Accounts, Dropped, KnownType, OwnCause, Flagged;
      TookNothing(cis, seenEdges);
      calls := calls + 1;
      var packageRaw := g.packageTypeOf(cis);
      ghost var own := OwnCause(packageRaw);
      AccountsOwn(warnings, packageRaw);
      assert warnings + [] == warnings;
      if !KnownType(packageRaw) {
        Warn(UnknownRawPackageType(packageRaw));
      }
      if depth > safetyMaxDepth {
        AccountsOne(old(warnings), warnings, own, InternalSafetyLimit);
        Warn(InternalSafetyLimit);
        return Node(cis, packageRaw, []);
      }
      if cis in visiting {
        AccountsOne(old(warnings), warnings, own, CycleDetected);
        Warn(CycleDetected);
        return Node(cis, packageRaw, []);
      }
      ghost var middle := warnings;
      visiting := visiting + {cis};
      var children := WalkChildren(cis, depth);
      visiting := visiting - {cis};
      AccountsChildren(old(warnings), middle, warnings, own, |g.directChildren(cis)| - |children|,
                       CausesAll(g, children, safetyMaxDepth - depth - 1, visiting + {cis}));
      return Node(cis, packageRaw, children);
    }

    /** The loop over the direct children of an open node. */
    method WalkChildren(cis: string, depth: int) returns (children: seq<Node>)
      requires Flagged() && depth <= safetyMaxDepth
      modifies this
      ensures Flagged() && visiting == old(visiting)
      ensures Took(EdgesAll(cis, children), old(seenEdges), seenEdges)
      ensures calls == old(calls) + |EdgesAll(cis, children)|
      ensures ExploresAll(g, cis, g.directChildren(cis), children, safetyMaxDepth - depth - 1, old(visiting),
                          old(seenEdges))
      ensures |children| <= |g.directChildren(cis)|
      ensures Accounts(old(warnings), warnings, |g.directChildren(cis)| - |children|,
                       CausesAll(g, children, safetyMaxDepth - depth - 1, old(visiting)))
      decreases safetyMaxDepth - depth, 2
    {
      hide EdgesAll, Edges, Took, ExploresAll, Explores, Causes, CausesAll, Accounts, Dropped, Flagged;
      var left := safetyMaxDepth - depth - 1;
      TookNothing(cis, seenEdges);
      ExploresNothing(g, cis, left, visiting, seenEdges);
      AccountsNothing(warnings);
      children := [];
      var direct := g.directChildren(cis);
      var i := 0;
      assert direct[..0] == [];
      while i < |direct|
        invariant 0 <= |children| <= i <= |direct|
        invariant Flagged() && visiting == old(visiting)
        invariant Took(EdgesAll(cis, children), old(seenEdges), seenEdges)
        invariant calls == old(calls) + |EdgesAll(cis, children)|
        invariant ExploresAll(g, cis, direct[..i], children, left, old(visiting), old(seenEdges))
        invariant Accounts(old(warnings), warnings, i - |children|, CausesAll(g, children, left, old(visiting)))
      {
        var child := direct[i];
        var edge := (cis, child);
        assert direct[..i + 1][..i] == direct[..i];
        TookUsed(cis, children, old(seenEdges), seenEdges);
        ghost var causes, middle := CausesAll(g, children, left, visiting), warnings;
        if edge in seenEdges {
          ExploresDropped(g, cis, direct[..i + 1], children, left, visiting, old(seenEdges));
          AccountsDropped(old(warnings), warnings, i - |children|, causes);
          Warn(DuplicateEdgeDropped);
        } else {
          ghost var mid := seenEdges;
          seenEdges := seenEdges + {edge};
          var node := Visit(child, depth + 1);
          ExploresTaken(g, cis, direct[..i + 1], children, node, left, visiting, old(seenEdges));
          CausesSnoc(g, children, node, left, visiting);
          AccountsNode(old(warnings), middle, warnings, i - |children|, causes, Causes(g, node, left, visiting));
          TookOneMore(cis, children, node, old(seenEdges), mid, seenEdges);
          children := children + [node];
        }
        i := i + 1;
      }
      assert direct[..|direct|] == direct;
    }
  }

  lemma TookNothing(parent: string, seen: set<Edge>)
    ensures Took(EdgesAll(parent, []), seen, seen) && EdgesAll(parent, []) == []
  {
  }

  lemma TookCounts(edges: seq<Edge>, before: set<Edge>, after: set<Edge>)
    requires Took(edges, before, after)
    ensures NoRepeat(edges) && Elements(edges) !! before && |after| == |before| + |edges|
  {
    ElementsCount(edges);
  }

  // ---------- What an incomplete tree still says ----------

  function NodeCodes(ts: seq<Node>): seq<string> {
    seq(|ts|, i requires 0 <= i < |ts| => ts[i].cis)
  }

  /** few is full with some elements left out. */
  ghost predicate InOrder(few: seq<string>, full: seq<string>) {
    few == [] || (full != [] && (InOrder(few, full[..|full| - 1])
                                 || (few[|few| - 1] == full[|full| - 1]
                                     && InOrder(few[..|few| - 1], full[..|full| - 1]))))
  }

  /**
   Every node beyond the limit or on its own path is bare, and every other has its direct children in order; an edge
   it lacks is among the used ones. So a bare node is a leaf of the graph, lies beyond the limit, closes a cycle, or
   has only edges used elsewhere.
   */
  ghost predicate Shape(g: Catalog, t: Node, left: int, path: set<string>, used: set<Edge>) {
    && t.packageType == g.packageTypeOf(t.cis)
    && (left < 0 || t.cis in path ==> t.children == [])
    && (left >= 0 && t.cis !in path ==>
          && InOrder(NodeCodes(t.children), g.directChildren(t.cis))
          && forall c :: c in g.directChildren(t.cis) ==> (t.cis, c) in used)
    && forall i :: 0 <= i < |t.children| ==> Shape(g, t.children[i], left - 1, path + {t.cis}, used)
  }

  lemma {:induction false} ExploredShape(g: Catalog, t: Node, left: int, path: set<string>, seen: set<Edge>,
                                         used: set<Edge>)
    requires Explores(g, t, left, path, seen) && seen + Elements(Edges(t)) <= used
    ensures Shape(g, t, left, path, used)
    decreases t, 0
  {
    hide ExploresAll, InOrder, EdgesAll;
    if left >= 0 && t.cis !in path {
      AllShape(g, t.cis, g.directChildren(t.cis), t.children, left - 1, path + {t.cis}, seen, used);
    }
  }

  lemma {:induction false} AllShape(g: Catalog, parent: string, cs: seq<string>, ts: seq<Node>, left: int,
                                    path: set<string>, seen: set<Edge>, used: set<Edge>)
    requires ExploresAll(g, parent, cs, ts, left, path, seen) && seen + Elements(EdgesAll(parent, ts)) <= used
    ensures InOrder(NodeCodes(ts), cs) && forall c :: c in cs ==> (parent, c) in used
    ensures forall i :: 0 <= i < |ts| ==> Shape(g, ts[i], left, path, used)
    decreases ts, |cs|
  {
    hide Explores, Shape, Edges, EdgesAll;
    if cs != [] {
      var before, child := cs[..|cs| - 1], cs[|cs| - 1];
      if (parent, child) in seen + Elements(EdgesAll(parent, ts))
        && ExploresAll(g, parent, before, ts, left, path, seen) {
        AllShape(g, parent, before, ts, left, path, seen, used);
      } else {
        var rest, last := ts[..|ts| - 1], ts[|ts| - 1];
        assert ts == rest + [last];
        ExtendEdges(parent, rest, last);
        AllShape(g, parent, before, rest, left, path, seen, used);
        ExploredShape(g, last, left, path, seen + Elements(EdgesAll(parent, rest)) + {(parent, child)}, used);
        assert NodeCodes(ts)[..|ts| - 1] == NodeCodes(rest);
      }
    }
  }

  predicate HasType(t: Node, raw: Option<string>) {
    t.packageType == raw || exists i :: 0 <= i < |t.children| && HasType(t.children[i], raw)
  }

  /** Some node within the limit bears the code of a node above it. */
  ghost predicate ClosesCycle(t: Node, left: int, path: set<string>) {
    left >= 0
    && (t.cis in path || exists i :: 0 <= i < |t.children| && ClosesCycle(t.children[i], left - 1, path + {t.cis}))
  }

  /** Some node that was read further has fewer children than the graph gives it. */
  ghost predicate LeavesOut(g: Catalog, t: Node, left: int, path: set<string>) {
    left >= 0 && t.cis !in path
    && (|t.children| < |g.directChildren(t.cis)|
        || exists i :: 0 <= i < |t.children| && LeavesOut(g, t.children[i], left - 1, path + {t.cis}))
  }

  lemma {:induction false} CauseAmong(g: Catalog, ts: seq<Node>, left: int, path: set<string>, w: Warning)
    ensures w in CausesAll(g, ts, left, path) <==> exists i :: 0 <= i < |ts| && w in Causes(g, ts[i], left, path)
  {
    hide Causes;
    if ts != [] {
      var n := |ts| - 1;
      CauseAmong(g, ts[..n], left, path, w);
      assert forall i :: 0 <= i < n ==> ts[..n][i] == ts[i];
    }
  }

  lemma {:induction false} HigherAmong(ts: seq<Node>, left: int)
    requires left >= -1
    ensures HeightAll(ts) > left + 1 <==> exists i :: 0 <= i < |ts| && Height(ts[i]) > left
  {
    hide Height;
    if ts != [] {
      var n := |ts| - 1;
      HigherAmong(ts[..n], left);
      assert forall i :: 0 <= i < n ==> ts[..n][i] == ts[i];
    }
  }

  /** The limit is warned of exactly when the tree is higher than it allows. */
  lemma {:induction false} LimitWarnedIff(g: Catalog, t: Node, left: int, path: set<string>, used: set<Edge>)
    requires Shape(g, t, left, path, used)
    ensures InternalSafetyLimit in Causes(g, t, left, path) <==> Height(t) > left
    decreases t
  {
    hide InOrder, CausesAll, KnownType, HeightAll;
    if left >= 0 && t.cis !in path {
      CauseAmong(g, t.children, left - 1, path + {t.cis}, InternalSafetyLimit);
      HigherAmong(t.children, left - 1);
      forall i | 0 <= i < |t.children|
        ensures InternalSafetyLimit in Causes(g, t.children[i], left - 1, path + {t.cis}) <==>
                  Height(t.children[i]) > left - 1
      {
        LimitWarnedIff(g, t.children[i], left - 1, path + {t.cis}, used);
      }
    } else {
      assert HeightAll([]) == 0 by { NoHeight(); }
    }
  }

  lemma NoHeight()
    ensures HeightAll([]) == 0
  {
  }

  /** A type is warned of exactly when some node has it and it is not a known one. */
  lemma {:induction false} TypeWarnedIff(g: Catalog, t: Node, left: int, path: set<string>, used: set<Edge>,
                                         raw: Option<string>)
    requires Shape(g, t, left, path, used)
    ensures UnknownRawPackageType(raw) in Causes(g, t, left, path) <==> !KnownType(raw) && HasType(t, raw)
    decreases t
  {
    hide InOrder, CausesAll, KnownType;
    if left >= 0 && t.cis !in path {
      CauseAmong(g, t.children, left - 1, path + {t.cis}, UnknownRawPackageType(raw));
      forall i | 0 <= i < |t.children|
        ensures UnknownRawPackageType(raw) in Causes(g, t.children[i], left - 1, path + {t.cis})
                <==> !KnownType(raw) && HasType(t.children[i], raw)
      {
        TypeWarnedIff(g, t.children[i], left - 1, path + {t.cis}, used, raw);
      }
    }
  }

  lemma {:induction false} CycleWarnedIff(g: Catalog, t: Node, left: int, path: set<string>, used: set<Edge>)
    requires Shape(g, t, left, path, used)
    ensures CycleDetected in Causes(g, t, left, path) <==> ClosesCycle(t, left, path)
    decreases t
  {
    hide InOrder, CausesAll, KnownType;
    if left >= 0 && t.cis !in path {
      CauseAmong(g, t.children, left - 1, path + {t.cis}, CycleDetected);
      forall i | 0 <= i < |t.children|
        ensures CycleDetected in Causes(g, t.children[i], left - 1, path + {t.cis})
                <==> ClosesCycle(t.children[i], left - 1, path + {t.cis})
      {
        CycleWarnedIff(g, t.children[i], left - 1, path + {t.cis}, used);
      }
    }
  }

  lemma {:induction false} DuplicateWarnedIff(g: Catalog, t: Node, left: int, path: set<string>, used: set<Edge>)
    requires Shape(g, t, left, path, used)
    ensures DuplicateEdgeDropped in Causes(g, t, left, path) <==> LeavesOut(g, t, left, path)
    decreases t
  {
    hide InOrder, CausesAll, KnownType;
    if left >= 0 && t.cis !in path {
      CauseAmong(g, t.children, left - 1, path + {t.cis}, DuplicateEdgeDropped);
      forall i | 0 <= i < |t.children|
        ensures DuplicateEdgeDropped in Causes(g, t.children[i], left - 1, path + {t.cis})
                <==> LeavesOut(g, t.children[i], left - 1, path + {t.cis})
      {
        DuplicateWarnedIff(g, t.children[i], left - 1, path + {t.cis}, used);
      }
    }
  }

  // ---------- The result ----------

  datatype TreeResult = TreeResult(root: Node, complete: bool, truncated: bool, warnings: seq<Warning>)

  predicate ValidCode(code: string) {
    18 <= |code| <= 74 && forall i :: 0 <= i < |code| ==> !IsSpace(code[i])
  }

  /** The aggregate can be read whole: a finite unfolding, low enough, with no edge twice and only known types. */
  ghost predicate ReadableAs(g: Catalog, root: string, safetyMaxDepth: int, t: Node) {
    && t.cis == root && IsUnfolding(g, t) && Height(t) <= safetyMaxDepth
    && NoRepeat(Edges(t)) && AllKnown(t)
  }

  lemma FitsMeansReadable(g: Catalog, root: string, safetyMaxDepth: int, t: Node)
    ensures Fits(g, root, safetyMaxDepth, {}, {}) && Unfold(g, root, safetyMaxDepth) == Some(t) <==>
            ReadableAs(g, root, safetyMaxDepth, t)
  {
    UnfoldIsUnfolding(g, root, safetyMaxDepth);
    if ReadableAs(g, root, safetyMaxDepth, t) {
      UnfoldingIsComputed(g, t, safetyMaxDepth);
    }
  }

  /** What any result says, complete or not. */
  ghost predicate Reported(g: Catalog, root: string, safetyMaxDepth: int, r: TreeResult) {
    && r.root.cis == root && NoRepeat(Edges(r.root))
    && Explores(g, r.root, safetyMaxDepth, {}, {})
    && Shape(g, r.root, safetyMaxDepth, {}, Elements(Edges(r.root)))
    && multiset(r.warnings) == Causes(g, r.root, safetyMaxDepth, {})
    && (InternalSafetyLimit in r.warnings <==> Height(r.root) > safetyMaxDepth)
    && (forall raw :: UnknownRawPackageType(raw) in r.warnings <==> !KnownType(raw) && HasType(r.root, raw))
    && (CycleDetected in r.warnings <==> ClosesCycle(r.root, safetyMaxDepth, {}))
    && (DuplicateEdgeDropped in r.warnings <==> LeavesOut(g, r.root, safetyMaxDepth, {}))
  }

  lemma WalkReports(g: Catalog, safetyMaxDepth: int, r: TreeResult)
    requires NoRepeat(Edges(r.root)) && Explores(g, r.root, safetyMaxDepth, {}, {})
    requires multiset(r.warnings) == Causes(g, r.root, safetyMaxDepth, {})
    ensures Reported(g, r.root.cis, safetyMaxDepth, r)
  {
    hide Explores, Shape, Causes, Height, HasType, ClosesCycle, LeavesOut, KnownType, Edges, NoRepeat;
    var used := Elements(Edges(r.root));
    ExploredShape(g, r.root, safetyMaxDepth, {}, {}, used);
    LimitWarnedIff(g, r.root, safetyMaxDepth, {}, used);
    CycleWarnedIff(g, r.root, safetyMaxDepth, {}, used);
    DuplicateWarnedIff(g, r.root, safetyMaxDepth, {}, used);
    forall raw
      ensures UnknownRawPackageType(raw) in r.warnings <==> !KnownType(raw) && HasType(r.root, raw)
    {
      TypeWarnedIff(g, r.root, safetyMaxDepth, {}, used, raw);
    }
    forall w ensures w in r.warnings <==> w in multiset(r.warnings) {
    }
  }

  method BuildAggregateTree(rootCis: string, g: Catalog, safetyMaxDepth: int := INTERNAL_SAFETY_MAX_TREE_DEPTH)
    returns (r: Result<TreeResult, TreeError>, ghost calls: nat)
    ensures r.Ok? <==> 18 <= |rootCis| <= 74 && forall i :: 0 <= i < |rootCis| ==> !IsSpace(rootCis[i])
    ensures r.Ok? ==> (r.value.complete <==> exists t :: ReadableAs(g, rootCis, safetyMaxDepth, t))
    ensures r.Ok? && r.value.complete ==> ReadableAs(g, rootCis, safetyMaxDepth, r.value.root)
    ensures r.Ok? ==> (r.value.complete <==> r.value.warnings == [])
    ensures r.Ok? ==> (r.value.truncated <==> InternalSafetyLimit in r.value.warnings)
    ensures r.Ok? ==> r.value.root.cis == rootCis && OnlyRealEdges(g, r.value.root) && NoRepeat(Edges(r.value.root))
    ensures r.Ok? ==> Reported(g, rootCis, safetyMaxDepth, r.value)
    ensures r.Ok? ==> calls == 1 + |Edges(r.value.root)|
  {
    if !ValidCode(rootCis) {
      return Err(InvalidRootCode), 0;
    }
    hide Reported, Explores, Causes, Fits, Unfold, IsUnfolding, Height, AllKnown;
    var walk := new TreeWalk(g, safetyMaxDepth);
    var root := walk.Walk(rootCis, 0);
    var complete := !walk.incomplete && !walk.truncated;
    calls := walk.calls;
    ElementsCount(Edges(root));
    FitsMeansReadable(g, rootCis, safetyMaxDepth, root);
    if exists t :: ReadableAs(g, rootCis, safetyMaxDepth, t) {
      var t :| ReadableAs(g, rootCis, safetyMaxDepth, t);
      FitsMeansReadable(g, rootCis, safetyMaxDepth, t);
    }
    WalkReports(g, safetyMaxDepth, TreeResult(root, complete, walk.truncated, walk.warnings));
    return Ok(TreeResult(root, complete, walk.truncated, walk.warnings)), calls;
  }

  lemma {:induction false} ElementsCount(s: seq<Edge>)
    requires NoRepeat(s)
    ensures |Elements(s)| == |s|
  {
    if s != [] {
      var n := |s| - 1;
      ElementsCount(s[..n]);
      assert s == s[..n] + [s[n]];
      assert Elements(s) == Elements(s[..n]) + {s[n]};
    }
  }
}
