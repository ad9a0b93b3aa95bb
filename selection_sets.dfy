/** The projector of server.js: it turns the selection set of a GraphQL query
    into the list of source-field paths handed to the search engine as its
    `_source` filter. */
module SelectionSets {
  import opened Wrappers

  /** A field of a GraphQL query: its name and, when the field selects
      sub-fields, its selection set. A present but empty selection set is an
      object in JavaScript, so it counts as present. */
  datatype Selection = Selection(name: string, selectionSet: Option<SelectionSet>)

  /** GraphQL's selection-set node, holding its selections in declaration order. */
  datatype SelectionSet = SelectionSet(selections: seq<Selection>)

  /** JavaScript truthiness of the `parentPath` argument: `undefined` and the
      empty string are falsy. */
  predicate Truthy(parentPath: Option<string>)
  {
    parentPath.Some? && parentPath.value != ""
  }

  /** The path a leaf selection contributes. */
  function LeafPath(parentPath: Option<string>, name: string): string
  {
    if Truthy(parentPath) then parentPath.value + "." + name else name
  }

  /** What the reduce over `selections` accumulates, read as a left fold:
      the paths of all but the last selection, then those of the last one. */
  function Fields(selections: seq<Selection>, parentPath: Option<string>): seq<string>
    decreases selections
  {
    if selections == [] then []
    else Fields(selections[..|selections| - 1], parentPath)
         + SelectionFields(selections[|selections| - 1], parentPath)
  }

  /** What one selection adds to the accumulator: a nested selection set is
      projected with the selection's own name, and only that name, as the
      parent path; a leaf adds its own path. */
  function SelectionFields(selection: Selection, parentPath: Option<string>): seq<string>
    decreases selection
  {
    match selection.selectionSet
    case Some(nested) => Fields(nested.selections, Some(selection.name))
    case None => [LeafPath(parentPath, selection.name)]
  }

  /** The projector itself: a loop over the selections that appends to the
      accumulated list, recursing into nested selection sets. */
  method TransformSelectionSetToFields(selectionSet: SelectionSet, parentPath: Option<string>)
    returns (fields: seq<string>)
    ensures fields == Fields(selectionSet.selections, parentPath)
    ensures selectionSet.selections == [] ==> fields == []
    decreases selectionSet
  {
    var selections := selectionSet.selections;
    fields := [];
    var i := 0;
    while i < |selections|
      invariant 0 <= i <= |selections|
      invariant fields == Fields(selections[..i], parentPath)
    {
      var selection := selections[i];
      var path := selection.name;
      if selection.selectionSet.Some? {
        var nested := TransformSelectionSetToFields(selection.selectionSet.value, Some(path));
        fields := fields + nested;
      } else {
        fields := fields + [LeafPath(parentPath, path)];
      }
      assert selections[..i + 1][..i] == selections[..i];
      i := i + 1;
    }
    assert selections[..i] == selections;
  }

  // ---------------------------------------------------------------------------
  // Independent descriptions of a selection tree

  /** The number of leaf selections reachable from `selections`. */
  function LeafCount(selections: seq<Selection>): nat
    decreases selections
  {
    if selections == [] then 0
    else LeafCount(selections[..|selections| - 1]) + SelectionLeafCount(selections[|selections| - 1])
  }

  function SelectionLeafCount(selection: Selection): nat
    decreases selection
  {
    match selection.selectionSet
    case Some(nested) => LeafCount(nested.selections)
    case None => 1
  }

  /** Puts `name` in front of every chain. */
  function Prefixed(name: string, chains: seq<seq<string>>): (r: seq<seq<string>>)
    ensures |r| == |chains|
    ensures forall k :: 0 <= k < |r| ==> r[k] == [name] + chains[k]
  {
    seq(|chains|, k requires 0 <= k < |chains| => [name] + chains[k])
  }

  /** For every reachable leaf, in depth-first declaration order, the names of
      the selections from the top level down to that leaf. */
  function LeafChains(selections: seq<Selection>): (r: seq<seq<string>>)
    ensures forall k :: 0 <= k < |r| ==> |r[k]| >= 1
    decreases selections
  {
    if selections == [] then []
    else LeafChains(selections[..|selections| - 1]) + SelectionChains(selections[|selections| - 1])
  }

  function SelectionChains(selection: Selection): (r: seq<seq<string>>)
    ensures forall k :: 0 <= k < |r| ==> |r[k]| >= 1
    decreases selection
  {
    match selection.selectionSet
    case Some(nested) => Prefixed(selection.name, LeafChains(nested.selections))
    case None => [[selection.name]]
  }

  /** The path the projector emits for a leaf reached along `chain`: the leaf's
      name, qualified by the name just before it in the chain, if any. */
  function TailPath(chain: seq<string>): string
    requires |chain| >= 1
  {
    LeafPath(if |chain| >= 2 then Some(chain[|chain| - 2]) else None, chain[|chain| - 1])
  }

  /** The parent path as a chain of zero or one names. */
  function ParentChain(parentPath: Option<string>): seq<string>
  {
    if parentPath.Some? then [parentPath.value] else []
  }

  function TailPaths(prefix: seq<string>, chains: seq<seq<string>>): (r: seq<string>)
    requires forall k :: 0 <= k < |chains| ==> |chains[k]| >= 1
    ensures |r| == |chains|
  {
    seq(|chains|, k requires 0 <= k < |chains| => TailPath(prefix + chains[k]))
  }

  /** The number of '.' characters in `s`. */
  function DotCount(s: string): nat
  {
    if s == [] then 0 else DotCount(s[..|s| - 1]) + (if s[|s| - 1] == '.' then 1 else 0)
  }

  /** GraphQL names are non-empty and never contain '.'. */
  predicate GraphQLName(name: string)
  {
    name != [] && '.' !in name
  }

  predicate GraphQLNames(selections: seq<Selection>)
    decreases selections
  {
    selections != [] ==>
      GraphQLNames(selections[..|selections| - 1]) && SelectionGraphQLNames(selections[|selections| - 1])
  }

  predicate SelectionGraphQLNames(selection: Selection)
    decreases selection
  {
    GraphQLName(selection.name) &&
    match selection.selectionSet
    case Some(nested) => GraphQLNames(nested.selections)
    case None => true
  }

  // ---------------------------------------------------------------------------
  // Properties of the projector

  /** Sibling order is kept: the paths of earlier selections come before those
      of later ones, and nothing is sorted or deduplicated, so a repeated
      selection repeats its paths. */
  lemma {:induction false} FieldsAppend(a: seq<Selection>, b: seq<Selection>, parentPath: Option<string>)
    ensures Fields(a + b, parentPath) == Fields(a, parentPath) + Fields(b, parentPath)
    decreases |b|
  {
    if b == [] {
      assert a + b == a;
    } else {
      var b' := b[..|b| - 1];
      assert (a + b)[..|a + b| - 1] == a + b';
      assert (a + b)[|a + b| - 1] == b[|b| - 1];
      FieldsAppend(a, b', parentPath);
    }
  }

  /** Each reachable leaf yields exactly one path and nothing else yields one. */
  lemma {:induction false} FieldsLength(selections: seq<Selection>, parentPath: Option<string>)
    ensures |Fields(selections, parentPath)| == LeafCount(selections)
    decreases selections
  {
    if selections != [] {
      FieldsLength(selections[..|selections| - 1], parentPath);
      SelectionFieldsLength(selections[|selections| - 1], parentPath);
    }
  }

  lemma {:induction false} SelectionFieldsLength(selection: Selection, parentPath: Option<string>)
    ensures |SelectionFields(selection, parentPath)| == SelectionLeafCount(selection)
    decreases selection
  {
    match selection.selectionSet
    case Some(nested) => FieldsLength(nested.selections, Some(selection.name));
    case None =>
  }

  /** A selection set made only of leaves yields one path per selection, in
      order: the bare name without a parent path, `parent.name` with one. */
  lemma {:induction false} LeafOnlySelections(selections: seq<Selection>, parentPath: Option<string>)
    requires forall k :: 0 <= k < |selections| ==> selections[k].selectionSet.None?
    ensures |Fields(selections, parentPath)| == |selections|
    ensures forall k :: 0 <= k < |selections| ==>
      Fields(selections, parentPath)[k] ==
        (if Truthy(parentPath) then parentPath.value + "." + selections[k].name else selections[k].name)
    decreases |selections|
  {
    if selections != [] {
      LeafOnlySelections(selections[..|selections| - 1], parentPath);
    }
  }

  lemma TailPathsAppend(prefix: seq<string>, a: seq<seq<string>>, b: seq<seq<string>>)
    requires forall k :: 0 <= k < |a| ==> |a[k]| >= 1
    requires forall k :: 0 <= k < |b| ==> |b[k]| >= 1
    ensures TailPaths(prefix, a + b) == TailPaths(prefix, a) + TailPaths(prefix, b)
  {
  }

  /** Only the last two names of a chain decide its path. */
  lemma TailPathOfLongChain(prefix: seq<string>, chain: seq<string>)
    requires |chain| >= 2
    ensures TailPath(prefix + chain) == TailPath(chain)
  {
  }

  /** The exact shape of the output: one path per reachable leaf, in
      depth-first declaration order, and that path is the leaf's name
      qualified only by its immediate parent's name (or, at the top level, by
      the given parent path). Deeper ancestors never appear. */
  lemma {:induction false} FieldsAreChainTails(selections: seq<Selection>, parentPath: Option<string>)
    ensures Fields(selections, parentPath) == TailPaths(ParentChain(parentPath), LeafChains(selections))
    decreases selections
  {
    if selections != [] {
      var init, last := selections[..|selections| - 1], selections[|selections| - 1];
      FieldsAreChainTails(init, parentPath);
      SelectionFieldsAreChainTails(last, parentPath);
      TailPathsAppend(ParentChain(parentPath), LeafChains(init), SelectionChains(last));
    }
  }

  lemma {:induction false} SelectionFieldsAreChainTails(selection: Selection, parentPath: Option<string>)
    ensures SelectionFields(selection, parentPath) == TailPaths(ParentChain(parentPath), SelectionChains(selection))
    decreases selection
  {
    match selection.selectionSet
    case Some(nested) =>
      var name := selection.name;
      var chains := LeafChains(nested.selections);
      FieldsAreChainTails(nested.selections, Some(name));
      var lhs := TailPaths([name], chains);
      var rhs := TailPaths(ParentChain(parentPath), Prefixed(name, chains));
      forall k | 0 <= k < |chains|
        ensures lhs[k] == rhs[k]
      {
        TailPathOfLongChain(ParentChain(parentPath), [name] + chains[k]);
        TailPathOfLongChain([], [name] + chains[k]);
        assert [] + ([name] + chains[k]) == [name] + chains[k];
      }
    case None =>
      assert ParentChain(parentPath) + [selection.name] ==
        if parentPath.Some? then [parentPath.value, selection.name] else [selection.name];
  }

  lemma {:induction false} DotCountAppend(a: string, b: string)
    ensures DotCount(a + b) == DotCount(a) + DotCount(b)
    decreases |b|
  {
    if b == [] {
      assert a + b == a;
    } else {
      assert (a + b)[..|a + b| - 1] == a + b[..|b| - 1];
      DotCountAppend(a, b[..|b| - 1]);
    }
  }

  lemma {:induction false} DotFreeHasNoDots(s: string)
    requires '.' !in s
    ensures DotCount(s) == 0
    decreases |s|
  {
    if s != [] {
      assert forall c :: c in s[..|s| - 1] ==> c in s;
      DotFreeHasNoDots(s[..|s| - 1]);
    }
  }

  /** Every name along a leaf chain is a name of the tree. */
  lemma {:induction false} ChainNames(selections: seq<Selection>)
    requires GraphQLNames(selections)
    ensures forall k, j :: 0 <= k < |LeafChains(selections)| && 0 <= j < |LeafChains(selections)[k]| ==>
      GraphQLName(LeafChains(selections)[k][j])
    decreases selections
  {
    if selections != [] {
      var init, last := selections[..|selections| - 1], selections[|selections| - 1];
      ChainNames(init);
      SelectionChainNames(last);
      var a, b := LeafChains(init), SelectionChains(last);
      assert forall k :: |a| <= k < |a| + |b| ==> (a + b)[k] == b[k - |a|];
    }
  }

  lemma {:induction false} SelectionChainNames(selection: Selection)
    requires SelectionGraphQLNames(selection)
    ensures forall k, j :: 0 <= k < |SelectionChains(selection)| && 0 <= j < |SelectionChains(selection)[k]| ==>
      GraphQLName(SelectionChains(selection)[k][j])
    decreases selection
  {
    match selection.selectionSet
    case Some(nested) => ChainNames(nested.selections);
    case None =>
  }

  /** A chain of GraphQL names yields a path with at most one '.'. */
  lemma TailPathDots(chain: seq<string>)
    requires |chain| >= 1
    requires forall j :: 0 <= j < |chain| ==> GraphQLName(chain[j])
    ensures DotCount(TailPath(chain)) <= 1
  {
    var last := chain[|chain| - 1];
    assert GraphQLName(last);
    DotFreeHasNoDots(last);
    if |chain| >= 2 {
      var parent := chain[|chain| - 2];
      assert GraphQLName(parent);
      DotFreeHasNoDots(parent);
      assert DotCount(".") == 1 by {
        assert "."[..0] == [];
      }
      DotCountAppend(parent, ".");
      DotCountAppend(parent + ".", last);
      assert TailPath(chain) == parent + "." + last;
    }
  }

  /** With GraphQL names, every emitted path has one or two segments: at most
      one '.'. */
  lemma AtMostTwoSegments(selections: seq<Selection>)
    requires GraphQLNames(selections)
    ensures forall k :: 0 <= k < |Fields(selections, None)| ==> DotCount(Fields(selections, None)[k]) <= 1
  {
    FieldsAreChainTails(selections, None);
    ChainNames(selections);
    var chains := LeafChains(selections);
    var paths := TailPaths([], chains);
    forall k | 0 <= k < |chains|
      ensures DotCount(paths[k]) <= 1
    {
      var c := chains[k];
      assert [] + c == c;
      assert forall j :: 0 <= j < |c| ==> GraphQLName(c[j]);
      TailPathDots(c);
    }
  }

  // ---------------------------------------------------------------------------
  // The projection with the full path from the top level

  /** The segments of a chain joined with '.'. */
  function Join(segments: seq<string>): string
    decreases |segments|
  {
    if |segments| == 0 then ""
    else if |segments| == 1 then segments[0]
    else Join(segments[..|segments| - 1]) + "." + segments[|segments| - 1]
  }

  /** The projector with the accumulated path passed down instead of only the
      selection's own name. */
  function FullFields(selections: seq<Selection>, prefix: seq<string>): seq<string>
    decreases selections
  {
    if selections == [] then []
    else FullFields(selections[..|selections| - 1], prefix)
         + SelectionFullFields(selections[|selections| - 1], prefix)
  }

  function SelectionFullFields(selection: Selection, prefix: seq<string>): seq<string>
    decreases selection
  {
    match selection.selectionSet
    case Some(nested) => FullFields(nested.selections, prefix + [selection.name])
    case None => [Join(prefix + [selection.name])]
  }

  function JoinedChains(prefix: seq<string>, chains: seq<seq<string>>): (r: seq<string>)
    ensures |r| == |chains|
  {
    seq(|chains|, k requires 0 <= k < |chains| => Join(prefix + chains[k]))
  }

  lemma JoinedChainsAppend(prefix: seq<string>, a: seq<seq<string>>, b: seq<seq<string>>)
    ensures JoinedChains(prefix, a + b) == JoinedChains(prefix, a) + JoinedChains(prefix, b)
  {
  }

  /** The corrected projector emits, for each reachable leaf in depth-first
      declaration order, the full dotted path from the top level to it. */
  lemma {:induction false} FullFieldsAreJoinedChains(selections: seq<Selection>, prefix: seq<string>)
    ensures FullFields(selections, prefix) == JoinedChains(prefix, LeafChains(selections))
    decreases selections
  {
    if selections != [] {
      var init, last := selections[..|selections| - 1], selections[|selections| - 1];
      FullFieldsAreJoinedChains(init, prefix);
      SelectionFullFieldsAreJoinedChains(last, prefix);
      JoinedChainsAppend(prefix, LeafChains(init), SelectionChains(last));
    }
  }

  lemma {:induction false} SelectionFullFieldsAreJoinedChains(selection: Selection, prefix: seq<string>)
    ensures SelectionFullFields(selection, prefix) == JoinedChains(prefix, SelectionChains(selection))
    decreases selection
  {
    match selection.selectionSet
    case Some(nested) =>
      var name := selection.name;
      var chains := LeafChains(nested.selections);
      FullFieldsAreJoinedChains(nested.selections, prefix + [name]);
      forall k | 0 <= k < |chains|
        ensures (prefix + [name]) + chains[k] == prefix + Prefixed(name, chains)[k]
      {
      }
    case None =>
  }

  /** Projecting `species { homeworld { name } }` as written yields
      "homeworld.name", the person's own homeworld, where the full path is
      "species.homeworld.name". */
  lemma NestedSelectionDropsGrandparent()
    ensures var query := [Selection("species", Some(SelectionSet([
                            Selection("homeworld", Some(SelectionSet([Selection("name", None)])))])))];
            Fields(query, None) == ["homeworld.name"] &&
            FullFields(query, []) == ["species.homeworld.name"]
  {
    var leaf := [Selection("name", None)];
    var homeworld := [Selection("homeworld", Some(SelectionSet(leaf)))];
    var query := [Selection("species", Some(SelectionSet(homeworld)))];
    assert leaf[..0] == [] && homeworld[..0] == [] && query[..0] == [];
    assert LeafPath(Some("homeworld"), "name") == "homeworld.name" by {
      assert "homeworld" + "." + "name" == "homeworld.name";
    }
    assert Fields(leaf, Some("homeworld")) == ["homeworld.name"];
    assert Fields(homeworld, Some("species")) == ["homeworld.name"];
    assert Join(["species", "homeworld", "name"]) == "species.homeworld.name" by {
      assert ["species", "homeworld", "name"][..2] == ["species", "homeworld"];
      assert ["species", "homeworld"][..1] == ["species"];
    }
    assert FullFields(leaf, ["species", "homeworld"]) == ["species.homeworld.name"] by {
      assert ["species", "homeworld"] + ["name"] == ["species", "homeworld", "name"];
    }
    assert FullFields(homeworld, ["species"]) == ["species.homeworld.name"] by {
      assert ["species"] + ["homeworld"] == ["species", "homeworld"];
    }
    assert FullFields(query, []) == ["species.homeworld.name"] by {
      assert [] + ["species"] == ["species"];
    }
  }

  /** As long as no leaf lies deeper than two levels, the projector as written
      and the full-path projector agree. */
  lemma ShallowSelectionsAgree(selections: seq<Selection>)
    requires GraphQLNames(selections)
    requires forall k :: 0 <= k < |LeafChains(selections)| ==> |LeafChains(selections)[k]| <= 2
    ensures Fields(selections, None) == FullFields(selections, [])
  {
    FieldsAreChainTails(selections, None);
    FullFieldsAreJoinedChains(selections, []);
    ChainNames(selections);
    var chains := LeafChains(selections);
    forall k | 0 <= k < |chains|
      ensures TailPath([] + chains[k]) == Join([] + chains[k])
    {
      var c := chains[k];
      assert [] + c == c;
      if |c| == 2 {
        assert c[..1] == [c[0]];
        assert GraphQLName(c[0]);
      }
    }
  }

  /** The selection `{ name, homeworld { name } }` yields exactly
      ["name", "homeworld.name"]. */
  lemma NameAndHomeworldName()
    ensures Fields([Selection("name", None),
                    Selection("homeworld", Some(SelectionSet([Selection("name", None)])))], None)
            == ["name", "homeworld.name"]
  {
    var leaf := [Selection("name", None)];
    var s := [Selection("name", None), Selection("homeworld", Some(SelectionSet(leaf)))];
    assert s[..1] == leaf && leaf[..0] == [];
    assert Fields(leaf, None) == ["name"];
    assert LeafPath(Some("homeworld"), "name") == "homeworld.name" by {
      assert "homeworld" + "." + "name" == "homeworld.name";
    }
    assert Fields(leaf, Some("homeworld")) == ["homeworld.name"];
  }
}
