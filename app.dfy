/** The `App` component (frontend/src/App.jsx): the list of ships it shows, the
    search over it, the form mode and the notifications. Each handler is one
    atomic step; the outcome of its request is an argument. */
module AppComponent {
  import opened Wrappers
  import opened Text
  import opened Seqs
  import opened ShipFormComponent

  /** How a `fetch` ended: it threw (network failure, or a body that is not
      JSON) with a message, answered without `response.ok`, or answered with
      `response.ok` and the body. */
  datatype Outcome<T> = Thrown(message: string) | NotOk | Ok(body: T)

  /** The request a handler sends to the backend. */
  datatype Request = Put(id: Option<string>, body: Ship) | Post(body: Ship) | Delete(id: Option<string>)

  /** Which of the three screens is shown. */
  datatype Mode = Browsing | Editing(ship: Ship) | Creating

  // ---------------------------------------------------------------------------
  // The list updates

  /** `ships.map(ship => ship.id === id ? updated : ship)`. */
  function ReplaceById(ships: seq<Ship>, id: Option<string>, updated: Ship): (r: seq<Ship>)
    ensures |r| == |ships|
    ensures forall i :: 0 <= i < |ships| ==> r[i] == if ships[i].id == id then updated else ships[i]
  {
    if ships == [] then []
    else [if ships[0].id == id then updated else ships[0]] + ReplaceById(ships[1..], id, updated)
  }

  function IdIsNot(id: Option<string>): Ship -> bool {
    (s: Ship) => s.id != id
  }

  /** `ships.filter(ship => ship.id !== id)`. */
  function RemoveById(ships: seq<Ship>, id: Option<string>): seq<Ship> {
    Filter(ships, IdIsNot(id))
  }

  /** No two ships in the list share an id. */
  predicate UniqueIds(ships: seq<Ship>) {
    forall i, j :: 0 <= i < j < |ships| ==> ships[i].id != ships[j].id
  }

  /** With unique ids, replacing by id changes exactly the one ship that has the
      id, and keeps the ids unique when the replacement carries the same id. */
  lemma ReplaceUnique(ships: seq<Ship>, k: int, updated: Ship)
    requires UniqueIds(ships) && 0 <= k < |ships|
    ensures ReplaceById(ships, ships[k].id, updated) == ships[k := updated]
    ensures updated.id == ships[k].id ==> UniqueIds(ships[k := updated])
  {
  }

  /** Removing by id leaves no ship with that id and keeps every other ship,
      in order; an id that is not in the list changes nothing. */
  lemma RemoveByIdSpec(ships: seq<Ship>, id: Option<string>)
    ensures forall s :: s in RemoveById(ships, id) <==> s in ships && s.id != id
    ensures IsSubsequence(RemoveById(ships, id), ships)
    ensures (forall s :: s in ships ==> s.id != id) ==> RemoveById(ships, id) == ships
  {
    FilterIsSubsequence(ships, IdIsNot(id));
    if forall s :: s in ships ==> s.id != id {
      FilterAll(ships, IdIsNot(id));
    }
  }

  /** With unique ids, removing an id that is present shortens the list by
      exactly one. */
  lemma RemovePresentId(ships: seq<Ship>, k: int)
    requires UniqueIds(ships) && 0 <= k < |ships|
    ensures |RemoveById(ships, ships[k].id)| == |ships| - 1
    ensures UniqueIds(RemoveById(ships, ships[k].id))
  {
    var id := ships[k].id;
    var hasId := (s: Ship) => s.id == id;
    FilterSingle(ships, hasId, k);
    FilterComplement(ships, IdIsNot(id), hasId);
    RemoveKeepsUnique(ships, id);
  }

  lemma {:induction false} RemoveKeepsUnique(ships: seq<Ship>, id: Option<string>)
    requires UniqueIds(ships)
    ensures UniqueIds(RemoveById(ships, id))
  {
    if ships != [] {
      var init, last := ships[..|ships| - 1], ships[|ships| - 1];
      RemoveKeepsUnique(init, id);
      assert forall s :: s in init ==> s.id != last.id by {
        forall s | s in init ensures s.id != last.id {
          var i :| 0 <= i < |init| && init[i] == s;
          assert ships[i] == s;
        }
      }
      assert ships == init + [last];
    }
  }

  /** The create request: the form data with its `id` replaced by the
      generated one. */
  function WithId(data: Ship, uuid: string): (r: Ship)
    ensures r.id == Some(uuid)
    ensures forall f :: FieldOf(r, f) == FieldOf(data, f)
    ensures r.notableEvents == data.notableEvents
  {
    data.(id := Some(uuid))
  }

  // ---------------------------------------------------------------------------
  // filteredShips

  /** The search term occurs, ignoring case, in the name, type or country. */
  predicate MatchesTerm(s: Ship, term: string) {
    || ContainsIgnoringCase(s.name, term)
    || ContainsIgnoringCase(s.shipType, term)
    || ContainsIgnoringCase(s.country, term)
  }

  function Term(term: string): Ship -> bool {
    s => MatchesTerm(s, term)
  }

  /** `filteredShips`. */
  function FilterShips(ships: seq<Ship>, term: string): seq<Ship> {
    Filter(ships, Term(term))
  }

  /** The ships shown are those that match the search term, in list order; an
      empty term shows them all. */
  lemma FilterShipsSpec(ships: seq<Ship>, term: string)
    ensures forall s :: s in FilterShips(ships, term) <==> s in ships && MatchesTerm(s, term)
    ensures IsSubsequence(FilterShips(ships, term), ships)
    ensures term == "" ==> FilterShips(ships, term) == ships
  {
    FilterIsSubsequence(ships, Term(term));
    if term == "" {
      forall s | s in ships ensures MatchesTerm(s, term) {
        ContainsIgnoringCaseEmpty(s.name);
      }
      FilterAll(ships, Term(term));
    }
  }

  /** A catalogue holding Victory (a British frigate) shows it when searched
      for "vict". */
  lemma SearchFindsVictory(victory: Ship)
    requires victory.name == "Victory" && victory.shipType == "Frigate" && victory.country == "UK"
    ensures FilterShips([victory], "vict") == [victory]
  {
    VictMatches();
    assert MatchesTerm(victory, "vict");
    FilterAll([victory], Term("vict"));
  }

  /** The same catalogue searched for "xyz" shows nothing. */
  lemma SearchXyzShowsNothing(victory: Ship)
    requires victory.name == "Victory" && victory.shipType == "Frigate" && victory.country == "UK"
    ensures FilterShips([victory], "xyz") == []
  {
    LacksBothCases(victory.name, 'x');
    LacksBothCases(victory.shipType, 'x');
    LacksBothCases(victory.country, 'x');
    AbsentLetterShowsNothing([victory], "xyz", 0);
  }

  /** No character of `field` lower-cases to `c`. */
  predicate Lacks(field: string, c: char) {
    forall i :: 0 <= i < |field| ==> LowerChar(field[i]) != c
  }

  /** A field holding a lower-case letter in neither case lacks it after lower-casing. */
  lemma LacksBothCases(field: string, c: char)
    requires 'a' <= c <= 'z' && c !in field && (c as int - 32) as char !in field
    ensures Lacks(field, c)
  {
    forall i | 0 <= i < |field| ensures LowerChar(field[i]) != c {
      assert field[i] != c && field[i] != (c as int - 32) as char;
    }
  }

  /** A term holding a character that, after lower-casing, appears in no
      ship's lower-cased name, type or country shows nothing. */
  lemma AbsentLetterShowsNothing(ships: seq<Ship>, term: string, k: int)
    requires 0 <= k < |term|
    requires forall s :: s in ships ==> Lacks(s.name, LowerChar(term[k])) && Lacks(s.shipType, LowerChar(term[k])) && Lacks(s.country, LowerChar(term[k]))
    ensures FilterShips(ships, term) == []
  {
    LowerSpec(term);
    forall s | s in ships ensures !MatchesTerm(s, term) {
      LacksNotContained(s.name, term, k);
      LacksNotContained(s.shipType, term, k);
      LacksNotContained(s.country, term, k);
    }
    FilterNone(ships, Term(term));
  }

  lemma LacksNotContained(field: string, term: string, k: int)
    requires 0 <= k < |term| && Lacks(field, LowerChar(term[k]))
    ensures !ContainsIgnoringCase(field, term)
  {
    LowerSpec(field);
    LowerSpec(term);
    MissingCharNotContained(Lower(field), Lower(term), k);
  }

  lemma VictMatches()
    ensures ContainsIgnoringCase("Victory", "vict")
  {
    var hay, needle := Lower("Victory"), Lower("vict");
    assert |hay| == 7 && |needle| == 4;
    LowerSpec("Victory");
    LowerSpec("vict");
    forall i | 0 <= i < 4 ensures hay[i] == needle[i] {
      assert hay[i] == LowerChar("Victory"[i]) && needle[i] == LowerChar("vict"[i]);
      assert "Victory"[i] == ['V', 'i', 'c', 't'][i];
    }
    assert hay[..4] == needle;
  }

  // ---------------------------------------------------------------------------
  // The component's state and handlers

  class App {
    var ships: seq<Ship>
    var searchTerm: string
    var editingShip: Option<Ship>
    var isCreating: bool
    var notification: Option<string>
    var isLoading: bool
    var error: Option<string>

    /** The form is never open for editing and creating at once. */
    ghost predicate Valid()
      reads this
    {
      !(editingShip.Some? && isCreating)
    }

    function Mode(): Mode
      reads this
    {
      if editingShip.Some? then Editing(editingShip.value)
      else if isCreating then Creating
      else Browsing
    }

    /** `(editingShip || isCreating) && <ShipForm .../>`. */
    predicate FormShown()
      reads this
    {
      editingShip.Some? || isCreating
    }

    /** The ship the form is opened with (`ship={editingShip}`). */
    function FormShip(): Option<Ship>
      reads this
    {
      editingShip
    }

    /** `filteredShips`, the cards shown. */
    function FilteredShips(): seq<Ship>
      reads this
    {
      FilterShips(ships, searchTerm)
    }

    constructor ()
      ensures Valid() && Mode() == Browsing
      ensures ships == [] && searchTerm == "" && notification == None && isLoading && error == None
    {
      ships := [];
      searchTerm := "";
      editingShip := None;
      isCreating := false;
      notification := None;
      isLoading := true;
      error := None;
    }

    /** `fetchShips` on mount: the list becomes the response on success; on
        failure the list stays and `error` holds the message. Loading ends
        either way. */
    method FetchShips(outcome: Outcome<seq<Ship>>)
      modifies this
      ensures outcome.Ok? ==> ships == outcome.body && error == old(error)
      ensures outcome.NotOk? ==> ships == old(ships) && error == Some("Failed to fetch ships")
      ensures outcome.Thrown? ==> ships == old(ships) && error == Some(outcome.message)
      ensures !isLoading
      ensures searchTerm == old(searchTerm) && editingShip == old(editingShip)
      ensures isCreating == old(isCreating) && notification == old(notification)
    {
      isLoading := true;
      match outcome {
        case Ok(data) =>
          ships := data;
        case NotOk =>
          error := Some("Failed to fetch ships");
        case Thrown(message) =>
          error := Some(message);
      }
      isLoading := false;
    }

    /** `handleSubmit`: with a ship being edited, a PUT of the form data to that
        ship's id and, on success, the response in place of every ship with that
        id; otherwise a POST of the form data under the generated id and, on
        success, the response appended. A failure leaves the list and shows
        "Error: " and the message. Either way the form closes. */
    method HandleSubmit(shipData: Ship, uuid: string, outcome: Outcome<Ship>) returns (request: Request)
      requires Valid()
      modifies this
      ensures Valid() && Mode() == Browsing && !FormShown()
      ensures old(editingShip).Some? ==> request == Put(old(editingShip).value.id, shipData)
      ensures old(editingShip).None? ==> request == Post(WithId(shipData, uuid))
      ensures outcome.Ok? && old(editingShip).Some? ==>
                ships == ReplaceById(old(ships), old(editingShip).value.id, outcome.body)
                && notification == Some("Ship updated successfully")
      ensures outcome.Ok? && old(editingShip).None? ==>
                ships == old(ships) + [outcome.body] && notification == Some("Ship created successfully")
      ensures outcome.NotOk? ==>
                && ships == old(ships)
                && notification == Some("Error: " + if old(editingShip).Some? then "Failed to update ship" else "Failed to create ship")
      ensures outcome.Thrown? ==> ships == old(ships) && notification == Some("Error: " + outcome.message)
      ensures searchTerm == old(searchTerm) && isLoading == old(isLoading) && error == old(error)
    {
      var failure: Option<string> := None;
      if editingShip.Some? {
        var editing := editingShip.value;
        request := Put(editing.id, shipData);
        match outcome {
          case Ok(updatedShip) =>
            ships := ReplaceById(ships, editing.id, updatedShip);
            notification := Some("Ship updated successfully");
          case NotOk =>
            failure := Some("Failed to update ship");
          case Thrown(message) =>
            failure := Some(message);
        }
      } else {
        var shipDataWithUuid := WithId(shipData, uuid);
        request := Post(shipDataWithUuid);
        match outcome {
          case Ok(newShip) =>
            ships := ships + [newShip];
            notification := Some("Ship created successfully");
          case NotOk =>
            failure := Some("Failed to create ship");
          case Thrown(message) =>
            failure := Some(message);
        }
      }
      if failure.Some? {
        notification := Some("Error: " + failure.value);
      }
      editingShip := None;
      isCreating := false;
    }

    /** `handleDelete`: a DELETE of `id` and, on success, every ship with that id
        dropped from the list; a failure leaves the list and shows the error. The
        form mode is left as it was. */
    method HandleDelete(id: Option<string>, outcome: Outcome<()>) returns (request: Request)
      modifies this
      ensures request == Delete(id)
      ensures outcome.Ok? ==> ships == RemoveById(old(ships), id) && notification == Some("Ship deleted successfully")
      ensures outcome.NotOk? ==> ships == old(ships) && notification == Some("Error: " + "Failed to delete ship")
      ensures outcome.Thrown? ==> ships == old(ships) && notification == Some("Error: " + outcome.message)
      ensures editingShip == old(editingShip) && isCreating == old(isCreating)
      ensures searchTerm == old(searchTerm) && isLoading == old(isLoading) && error == old(error)
    {
      request := Delete(id);
      match outcome {
        case Ok(_) =>
          ships := RemoveById(ships, id);
          notification := Some("Ship deleted successfully");
        case NotOk =>
          notification := Some("Error: " + "Failed to delete ship");
        case Thrown(message) =>
          notification := Some("Error: " + message);
      }
    }

    /** `handleEdit`: the form opens on `ship`. */
    method HandleEdit(ship: Ship)
      modifies this
      ensures Valid() && Mode() == Editing(ship) && FormShown() && FormShip() == Some(ship)
      ensures ships == old(ships) && searchTerm == old(searchTerm) && notification == old(notification)
      ensures isLoading == old(isLoading) && error == old(error)
    {
      editingShip := Some(ship);
      isCreating := false;
    }

    /** "Add Ship": the form opens blank. */
    method HandleAdd()
      modifies this
      ensures Valid() && Mode() == Creating && FormShown() && FormShip() == None
      ensures ships == old(ships) && searchTerm == old(searchTerm) && notification == old(notification)
      ensures isLoading == old(isLoading) && error == old(error)
    {
      isCreating := true;
      editingShip := None;
    }

    /** The form's Cancel: the form closes. */
    method HandleCancel()
      modifies this
      ensures Valid() && Mode() == Browsing && !FormShown()
      ensures ships == old(ships) && searchTerm == old(searchTerm) && notification == old(notification)
      ensures isLoading == old(isLoading) && error == old(error)
    {
      editingShip := None;
      isCreating := false;
    }

    /** Typing in the search box. */
    method HandleSearch(term: string)
      modifies this
      ensures searchTerm == term
      ensures ships == old(ships) && editingShip == old(editingShip) && isCreating == old(isCreating)
      ensures notification == old(notification) && isLoading == old(isLoading) && error == old(error)
    {
      searchTerm := term;
    }
  }
}
