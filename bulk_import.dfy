/** import-data.js: flattens every person of the dataset into a document and
    builds the bulk-request body that loads them into the "swapi" index, one
    metadata entry followed by one document per person. */
module BulkImport {
  import opened Wrappers
  import opened Json

  const IndexName: string := "swapi"
  const DocType: string := "person"

  /** A person of the dataset, and a document: a JSON object's members. */
  type Record = map<string, Value>

  /** Reading `.films` or `.vehicles` from a connection wrapper that is
      missing (or `null`) throws a TypeError; `key` names that wrapper. */
  datatype ImportError = MissingConnection(key: string)

  /** The wrapper `key` of `person` is `undefined` or `null`. */
  predicate MissingWrapper(person: Record, key: string)
  {
    key !in person || person[key] == Null
  }

  /** `person[wrapper][list]`: fails when the wrapper is missing, and is
      `undefined` (None) when the wrapper does not hold `list`. */
  function ReadConnection(person: Record, wrapper: string, list: string): Result<Option<Value>, ImportError>
  {
    if MissingWrapper(person, wrapper) then Failure(MissingConnection(wrapper))
    else Success(Property(person[wrapper], list))
  }

  /** An object literal member `key: v`. A member whose value is `undefined`
      is dropped when the body is serialised to JSON, which also hides a
      same-named member spread in before it. */
  function SetMember(document: Record, key: string, v: Option<Value>): Record
  {
    match v
    case Some(x) => document[key := x]
    case None => document - {key}
  }

  /** One person's document: every member but the two connection wrappers,
      then `films` and `vehicles` taken from inside them. `filmConnection.films`
      is read first, so its error wins when both wrappers are missing. */
  function Unwrap(person: Record): (r: Result<Record, ImportError>)
    ensures r.Failure? <==> MissingWrapper(person, "filmConnection") || MissingWrapper(person, "vehicleConnection")
    ensures MissingWrapper(person, "filmConnection") ==> r == Failure(MissingConnection("filmConnection"))
    ensures !MissingWrapper(person, "filmConnection") && MissingWrapper(person, "vehicleConnection") ==>
              r == Failure(MissingConnection("vehicleConnection"))
    ensures r.Success? ==> "filmConnection" !in r.value && "vehicleConnection" !in r.value
    ensures r.Success? ==>
      var films := Property(person["filmConnection"], "films");
      ("films" in r.value <==> films.Some?) && (films.Some? ==> r.value["films"] == films.value)
    ensures r.Success? ==>
      var vehicles := Property(person["vehicleConnection"], "vehicles");
      ("vehicles" in r.value <==> vehicles.Some?) && (vehicles.Some? ==> r.value["vehicles"] == vehicles.value)
    ensures r.Success? ==> forall key :: key in person && key !in UnwrappedKeys ==>
              key in r.value && r.value[key] == person[key]
    ensures r.Success? ==> forall key :: key in r.value ==> key in person || key in UnwrappedKeys
  {
    var details := person - {"filmConnection", "vehicleConnection"};
    match ReadConnection(person, "filmConnection", "films")
    case Failure(e) => Failure(e)
    case Success(films) =>
      match ReadConnection(person, "vehicleConnection", "vehicles")
      case Failure(e) => Failure(e)
      case Success(vehicles) =>
        Success(SetMember(SetMember(details, "films", films), "vehicles", vehicles))
  }

  /** The keys the unwrap removes or sets. */
  const UnwrappedKeys: set<string> := {"filmConnection", "vehicleConnection", "films", "vehicles"}

  /** The metadata entry `{index: {_index: "swapi", _type: "person", _id: id}}`. */
  function ActionEntry(id: nat): Value
  {
    Obj(map["index" := Obj(map["_index" := Str(IndexName), "_type" := Str(DocType), "_id" := Num(id)])])
  }

  /** The `documents` array that the reduce builds, as a left fold: the body
      for all but the last person, then the last person's metadata entry,
      whose id is that person's position, and document. The first person that
      cannot be unwrapped aborts the build. */
  function Documents(people: seq<Record>): Result<seq<Value>, ImportError>
    decreases |people|
  {
    if people == [] then Success([])
    else
      var index := |people| - 1;
      match Documents(people[..index])
      case Failure(e) => Failure(e)
      case Success(documents) =>
        match Unwrap(people[index])
        case Failure(e) => Failure(e)
        case Success(details) => Success(documents + [ActionEntry(index), Obj(details)])
  }

  /** The reduce itself: a loop that pushes two entries per person. */
  method BuildDocuments(people: seq<Record>) returns (r: Result<seq<Value>, ImportError>)
    ensures r == Documents(people)
  {
    var documents: seq<Value> := [];
    var index := 0;
    while index < |people|
      invariant 0 <= index <= |people|
      invariant Documents(people[..index]) == Success(documents)
    {
      var person := people[index];
      assert people[..index + 1][..index] == people[..index];
      var unwrapped := Unwrap(person);
      if unwrapped.Failure? {
        DocumentsAbortAt(people, index + 1);
        return Failure(unwrapped.error);
      }
      ghost var before := documents;
      documents := documents + [ActionEntry(index)];
      documents := documents + [Obj(unwrapped.value)];
      assert documents == before + [ActionEntry(index), Obj(unwrapped.value)];
      index := index + 1;
    }
    assert people[..index] == people;
    r := Success(documents);
  }

  /** Once the build has failed on a prefix of the people, the later people
      play no part. */
  lemma {:induction false} DocumentsAbortAt(people: seq<Record>, n: nat)
    requires n <= |people|
    requires Documents(people[..n]).Failure?
    ensures Documents(people) == Documents(people[..n])
    decreases |people|
  {
    if n == |people| {
      assert people[..n] == people;
    } else {
      var init := people[..|people| - 1];
      assert init[..n] == people[..n];
      DocumentsAbortAt(init, n);
    }
  }

  // ---------------------------------------------------------------------------
  // Properties of the bulk body

  /** For N people the body has 2N entries; entry 2i is the metadata entry
      with id i and entry 2i+1 is person i's document, so the ids are exactly
      0..N-1 in input order and every person yields one document in place. */
  lemma {:induction false} DocumentsShape(people: seq<Record>)
    requires Documents(people).Success?
    ensures |Documents(people).value| == 2 * |people|
    ensures forall i :: 0 <= i < |people| ==>
      Unwrap(people[i]).Success? &&
      Documents(people).value[2 * i] == ActionEntry(i) &&
      Documents(people).value[2 * i + 1] == Obj(Unwrap(people[i]).value)
    decreases |people|
  {
    if people != [] {
      var index := |people| - 1;
      var init := people[..index];
      DocumentsShape(init);
      forall i | 0 <= i < index
        ensures people[i] == init[i]
      {
      }
    }
  }

  /** The build fails exactly when some person cannot be unwrapped, and then
      with the error of the first such person. */
  lemma {:induction false} DocumentsFailure(people: seq<Record>)
    ensures Documents(people).Success? <==> forall i :: 0 <= i < |people| ==> Unwrap(people[i]).Success?
    ensures Documents(people).Failure? ==>
      exists i :: 0 <= i < |people| && Unwrap(people[i]) == Failure(Documents(people).error) &&
                  forall j :: 0 <= j < i ==> Unwrap(people[j]).Success?
    decreases |people|
  {
    if people != [] {
      var index := |people| - 1;
      var init := people[..index];
      DocumentsFailure(init);
      assert forall i :: 0 <= i < index ==> people[i] == init[i];
      if Documents(init).Failure? {
        var i :| 0 <= i < |init| && Unwrap(init[i]) == Failure(Documents(init).error) &&
                 forall j :: 0 <= j < i ==> Unwrap(init[j]).Success?;
        assert Unwrap(people[i]) == Failure(Documents(people).error);
      } else if Unwrap(people[index]).Failure? {
        assert Unwrap(people[index]) == Failure(Documents(people).error);
      }
    }
  }

  /** Metadata entries, and so document ids, never repeat. */
  lemma ActionEntriesDistinct(i: nat, j: nat)
    requires i != j
    ensures ActionEntry(i) != ActionEntry(j)
  {
    assert ActionEntry(i).fields["index"].fields["_id"] == Num(i);
    assert ActionEntry(j).fields["index"].fields["_id"] == Num(j);
  }

  /** Within one successful body, the metadata entries of two different
      people differ, so no document id is used twice. */
  lemma BulkIdsUnique(people: seq<Record>, i: nat, j: nat)
    requires Documents(people).Success?
    requires i < |people| && j < |people| && i != j
    ensures |Documents(people).value| == 2 * |people|
    ensures Documents(people).value[2 * i] != Documents(people).value[2 * j]
  {
    DocumentsShape(people);
    ActionEntriesDistinct(i, j);
  }

  /** A person whose two connections each hold one element: both wrappers are unwrapped into
      plain lists and removed. */
  lemma UnwrapExample(f1: Value, v1: Value)
    ensures var person := map["name" := Str("Luke Skywalker"),
                              "filmConnection" := Obj(map["films" := Arr([f1])]),
                              "vehicleConnection" := Obj(map["vehicles" := Arr([v1])])];
            Unwrap(person) == Success(map["name" := Str("Luke Skywalker"),
                                          "films" := Arr([f1]), "vehicles" := Arr([v1])])
  {
    var person := map["name" := Str("Luke Skywalker"),
                      "filmConnection" := Obj(map["films" := Arr([f1])]),
                      "vehicleConnection" := Obj(map["vehicles" := Arr([v1])])];
    var details := person - {"filmConnection", "vehicleConnection"};
    assert details == map["name" := Str("Luke Skywalker")];
    assert ReadConnection(person, "filmConnection", "films") == Success(Some(Arr([f1])));
    assert ReadConnection(person, "vehicleConnection", "vehicles") == Success(Some(Arr([v1])));
  }

  // ---------------------------------------------------------------------------
  // The run: delete, create, bulk

  /** A call the import makes on the search engine. */
  datatype EngineCall = DeleteIndex(index: string) | CreateIndex(index: string) | Bulk(body: seq<Value>)

  /** The calls `run` makes, in order, given whether the delete and create
      calls succeed. Each call is awaited, so a rejected call ends the run.
      The body was built when the script loaded; if that build failed, the
      script stopped before `run` and no call is made. */
  function RunCalls(people: seq<Record>, deleteSucceeds: bool, createSucceeds: bool): (calls: seq<EngineCall>)
    ensures Documents(people).Failure? ==> calls == []
    ensures Documents(people).Success? ==> 1 <= |calls| <= 3 && calls[0] == DeleteIndex(IndexName)
    ensures |calls| >= 2 <==> Documents(people).Success? && deleteSucceeds
    ensures |calls| >= 2 ==> calls[1] == CreateIndex(IndexName)
    ensures |calls| == 3 <==> Documents(people).Success? && deleteSucceeds && createSucceeds
    ensures |calls| == 3 ==> calls[2] == Bulk(Documents(people).value)
  {
    match Documents(people)
    case Failure(_) => []
    case Success(documents) =>
      [DeleteIndex(IndexName)]
      + (if deleteSucceeds then [CreateIndex(IndexName)] else [])
      + (if deleteSucceeds && createSucceeds then [Bulk(documents)] else [])
  }
}
