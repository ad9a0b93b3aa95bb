/** The `allPeople` resolver of server.js: it finds the field being resolved
    among the field nodes of the query, projects that field's selection set
    into source-field paths, asks the search engine for the matching people
    with that `_source` filter and returns the `_source` of every hit. */
module Resolver {
  import opened Wrappers
  import opened Json
  import opened SelectionSets

  /** The parts of GraphQL's resolve info the resolver reads: the name of the
      field being resolved and the query's field nodes for it. */
  datatype ResolveInfo = ResolveInfo(fieldName: string, fieldNodes: seq<Selection>)

  /** The search request: index, document type and `_source` filter. */
  datatype SearchRequest = SearchRequest(index: string, docType: string, source: seq<string>)

  /** One element of `response.hits.hits`, reduced to what the resolver
      reads: its `_source`, the document cut down to the requested fields. */
  datatype Hit = Hit(source: Value)

  /** How the resolver fails. `FieldNotFound`: no field node carries the
      field's name, so `currentField` is `undefined` and reading its
      `selectionSet` throws. `SelectionSetMissing`: the node has no selection
      set, so destructuring `selections` from `undefined` throws. */
  datatype ResolveError = FieldNotFound | SelectionSetMissing

  const IndexName: string := "swapi"
  const DocType: string := "person"

  /** `k` is the position of the first node named `fieldName`. */
  predicate IsFirstMatch(nodes: seq<Selection>, fieldName: string, k: int)
  {
    0 <= k < |nodes| && nodes[k].name == fieldName &&
    forall j :: 0 <= j < k ==> nodes[j].name != fieldName
  }

  /** `fieldNodes.find(node => node.name.value == fieldName)`. */
  function FindFieldNode(nodes: seq<Selection>, fieldName: string): (r: Option<Selection>)
    ensures r.None? <==> forall k :: 0 <= k < |nodes| ==> nodes[k].name != fieldName
    ensures r.Some? ==> exists k :: IsFirstMatch(nodes, fieldName, k) && nodes[k] == r.value
  {
    if nodes == [] then None
    else if nodes[0].name == fieldName then
      assert IsFirstMatch(nodes, fieldName, 0);
      Some(nodes[0])
    else
      var r := FindFieldNode(nodes[1..], fieldName);
      assert r.Some? ==> exists k :: IsFirstMatch(nodes, fieldName, k) && nodes[k] == r.value by {
        if r.Some? {
          var k :| IsFirstMatch(nodes[1..], fieldName, k) && nodes[1..][k] == r.value;
          assert IsFirstMatch(nodes, fieldName, k + 1);
        }
      }
      r
  }

  /** `response.hits.hits.map(hit => hit._source)`. */
  function Sources(hits: seq<Hit>): (r: seq<Value>)
    ensures |r| == |hits|
    ensures forall k :: 0 <= k < |r| ==> r[k] == hits[k].source
  {
    seq(|hits|, k requires 0 <= k < |hits| => hits[k].source)
  }

  /** The resolver. `search` stands for the engine: given a request it yields
      the hits in the engine's order. The request is complete, projection
      included, before the engine is asked. */
  method AllPeople(info: ResolveInfo, search: SearchRequest -> seq<Hit>)
    returns (r: Result<seq<Value>, ResolveError>)
    ensures (forall k :: 0 <= k < |info.fieldNodes| ==> info.fieldNodes[k].name != info.fieldName)
            <==> r == Failure(FieldNotFound)
    ensures r == Failure(SelectionSetMissing) <==>
            exists k :: IsFirstMatch(info.fieldNodes, info.fieldName, k) &&
                        info.fieldNodes[k].selectionSet.None?
    ensures forall k :: IsFirstMatch(info.fieldNodes, info.fieldName, k) &&
                        info.fieldNodes[k].selectionSet.Some? ==>
      var request := SearchRequest(IndexName, DocType,
                                   Fields(info.fieldNodes[k].selectionSet.value.selections, None));
      var hits := search(request);
      r.Success? && |r.value| == |hits| &&
      forall i :: 0 <= i < |hits| ==> r.value[i] == hits[i].source
  {
    var currentField := FindFieldNode(info.fieldNodes, info.fieldName);
    if currentField.None? {
      return Failure(FieldNotFound);
    }
    FirstMatchUnique(info.fieldNodes, info.fieldName);
    if currentField.value.selectionSet.None? {
      return Failure(SelectionSetMissing);
    }
    var fields := TransformSelectionSetToFields(currentField.value.selectionSet.value, None);
    var hits := search(SearchRequest(IndexName, DocType, fields));
    r := Success(Sources(hits));
  }

  /** There is at most one first match. */
  lemma FirstMatchUnique(nodes: seq<Selection>, fieldName: string)
    ensures forall k, m :: IsFirstMatch(nodes, fieldName, k) && IsFirstMatch(nodes, fieldName, m) ==> k == m
  {
  }
}
