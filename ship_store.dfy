/** The backend's in-memory ship records and its four record handlers plus
    search (backend/main.py). The dictionary `ships_db` becomes the class
    `ShipStore`; Python dictionaries iterate in insertion order, so the store also
    keeps its keys in that order. */
module ShipStore {
  import opened Wrappers
  import opened Text
  import opened Seqs

  /** One catalogue entry as the backend's `Ship` model validates it.
      (`type` is a Dafny keyword, hence `shipType`.) */
  datatype Ship = Ship(
    id: string,
    name: string,
    shipType: string,
    launchYear: int,
    country: string,
    length: string,
    notableEvents: seq<string>)

  /** The `HTTPException` a handler raises. */
  datatype HttpError = HttpError(status: int, detail: string)

  const AlreadyExists := HttpError(400, "Ship with this ID already exists")
  const NotFound := HttpError(404, "Ship not found")

  /** The values of `m` listed in the order of `keys`. */
  function Values(keys: seq<string>, m: map<string, Ship>): (r: seq<Ship>)
    requires forall k :: k in keys ==> k in m
    ensures |r| == |keys|
    ensures forall i :: 0 <= i < |keys| ==> r[i] == m[keys[i]]
  {
    if keys == [] then [] else Values(keys[..|keys| - 1], m) + [m[keys[|keys| - 1]]]
  }

  /** The filter of `search_ships`: every query parameter that is given must
      occur, ignoring case, in the corresponding field; one that is absent
      imposes nothing. */
  predicate Matches(s: Ship, name: Option<string>, shipType: Option<string>, country: Option<string>) {
    && (name.None? || ContainsIgnoringCase(s.name, name.value))
    && (shipType.None? || ContainsIgnoringCase(s.shipType, shipType.value))
    && (country.None? || ContainsIgnoringCase(s.country, country.value))
  }

  function Criteria(name: Option<string>, shipType: Option<string>, country: Option<string>): Ship -> bool {
    s => Matches(s, name, shipType, country)
  }

  class ShipStore {
    /** `ships_db`: the stored ships by id. */
    var db: map<string, Ship>
    /** The keys of `db` in the order in which they were first inserted. */
    var order: seq<string>

    ghost predicate Valid()
      reads this
    {
      Distinct(order) && forall k :: k in order <==> k in db
    }

    /** Every ship is stored under its own id. */
    ghost predicate KeysMatchIds()
      reads this
    {
      forall k :: k in db ==> db[k].id == k
    }

    /** `ships_db.values()`, in iteration order. */
    function Listing(): (r: seq<Ship>)
      reads this
      requires Valid()
      ensures |r| == |db|
    {
      assert order == order[..|order|];
      DistinctCard(order, db.Keys);
      Values(order, db)
    }

    constructor ()
      ensures Valid() && db == map[] && order == []
    {
      db := map[];
      order := [];
    }

    /** `create_ship`: a ship whose id is already a key is refused with 400 and
        changes nothing; otherwise it is stored under its id, last in iteration
        order, and returned. */
    method CreateShip(ship: Ship) returns (r: Result<Ship, HttpError>)
      requires Valid()
      modifies this
      ensures Valid()
      ensures old(ship.id in db) ==> r == Failure(AlreadyExists) && db == old(db) && order == old(order)
      ensures old(ship.id !in db) ==> r == Success(ship) && db == old(db)[ship.id := ship] && order == old(order) + [ship.id]
      ensures old(ship.id !in db) ==> |db| == old(|db|) + 1
      ensures old(KeysMatchIds()) ==> KeysMatchIds()
    {
      if ship.id in db {
        return Failure(AlreadyExists);
      }
      db := db[ship.id := ship];
      order := order + [ship.id];
      r := Success(ship);
    }

    /** `read_ship`: the stored ship, or 404 when the id is not a key. */
    method ReadShip(id: string) returns (r: Result<Ship, HttpError>)
      ensures id in db ==> r == Success(db[id])
      ensures id !in db ==> r == Failure(NotFound)
    {
      if id !in db {
        return Failure(NotFound);
      }
      r := Success(db[id]);
    }

    /** `update_ship`: 404 and no change when the id is not a key; otherwise the
        entry under `id` becomes the request body, whatever id the body carries,
        and the set of keys and their order stay as they were. */
    method UpdateShip(id: string, ship: Ship) returns (r: Result<Ship, HttpError>)
      requires Valid()
      modifies this
      ensures Valid()
      ensures old(id !in db) ==> r == Failure(NotFound) && db == old(db) && order == old(order)
      ensures old(id in db) ==> r == Success(ship) && db == old(db)[id := ship] && order == old(order)
      ensures db.Keys == old(db.Keys)
      ensures old(id in db) && old(KeysMatchIds()) ==> (KeysMatchIds() <==> ship.id == id)
    {
      if id !in db {
        return Failure(NotFound);
      }
      db := db[id := ship];
      r := Success(ship);
    }

    /** `delete_ship`: 404 and no change when the id is not a key; otherwise
        exactly that key is removed, from the map and from the iteration order. */
    method DeleteShip(id: string) returns (r: Result<(), HttpError>)
      requires Valid()
      modifies this
      ensures Valid()
      ensures old(id !in db) ==> r == Failure(NotFound) && db == old(db) && order == old(order)
      ensures old(id in db) ==> r == Success(()) && db == old(db) - {id} && order == Filter(old(order), k => k != id)
      ensures old(id in db) ==> |db| == old(|db|) - 1
      ensures forall k :: k != id ==> (k in db <==> k in old(db)) && (k in db ==> db[k] == old(db)[k])
    {
      if id !in db {
        return Failure(NotFound);
      }
      FilterDistinct(order, k => k != id);
      assert (db - {id}).Keys == db.Keys - {id};
      db := db - {id};
      order := Filter(order, k => k != id);
      r := Success(());
    }

    /** `search_ships`: walks the ships in iteration order and collects those
        that match every given query parameter. */
    method SearchShips(name: Option<string>, shipType: Option<string>, country: Option<string>)
      returns (results: seq<Ship>)
      requires Valid()
      ensures results == Filter(Listing(), Criteria(name, shipType, country))
    {
      var p := Criteria(name, shipType, country);
      var ships := Listing();
      results := [];
      var i := 0;
      while i < |ships|
        invariant 0 <= i <= |ships|
        invariant results == Filter(ships[..i], p)
      {
        var ship := ships[i];
        SearchStep(ships, i, p);
        if p(ship) {
          results := results + [ship];
        }
        i := i + 1;
      }
      assert ships[..|ships|] == ships;
    }
  }

  /** A client's view: what the handlers' contracts let a caller conclude about
      a sequence of requests. */
  method StoreScenario(ship: Ship, renamed: Ship)
    requires renamed.id == ship.id
  {
    var store := new ShipStore();
    var r := store.CreateShip(ship);
    assert r == Success(ship) && store.db == map[ship.id := ship];
    r := store.CreateShip(ship);
    assert r == Failure(AlreadyExists);
    r := store.ReadShip(ship.id);
    assert r == Success(ship);
    r := store.UpdateShip(ship.id, renamed);
    assert r == Success(renamed);
    assert store.db == map[ship.id := ship][ship.id := renamed] == map[ship.id := renamed];
    var d := store.DeleteShip(ship.id);
    assert d.Success? && store.db == map[];
    r := store.ReadShip(ship.id);
    assert r == Failure(NotFound);
    d := store.DeleteShip(ship.id);
    assert d == Failure(NotFound);
  }

  /** One iteration of the loop of `search_ships`. */
  lemma SearchStep(ships: seq<Ship>, i: int, p: Ship -> bool)
    requires 0 <= i < |ships|
    ensures Filter(ships[..i + 1], p) == if p(ships[i]) then Filter(ships[..i], p) + [ships[i]] else Filter(ships[..i], p)
  {
    assert ships[..i + 1] == ships[..i] + [ships[i]];
    FilterSnoc(ships[..i], ships[i], p);
  }

  /** What the filter of `search_ships` keeps. */
  lemma SearchResults(ships: seq<Ship>, name: Option<string>, shipType: Option<string>, country: Option<string>)
    ensures forall s :: s in Filter(ships, Criteria(name, shipType, country)) <==> s in ships && Matches(s, name, shipType, country)
    ensures IsSubsequence(Filter(ships, Criteria(name, shipType, country)), ships)
    ensures name.None? && shipType.None? && country.None? ==> Filter(ships, Criteria(name, shipType, country)) == ships
  {
    var p := Criteria(name, shipType, country);
    FilterIsSubsequence(ships, p);
    if name.None? && shipType.None? && country.None? {
      FilterAll(ships, p);
    }
  }

  /** A sequence without repetitions is as long as the set of its elements. */
  lemma {:induction false} DistinctCard(s: seq<string>, keys: set<string>)
    requires Distinct(s)
    requires forall k :: k in s <==> k in keys
    ensures |s| == |keys|
  {
    if s != [] {
      var last := s[|s| - 1];
      var init := s[..|s| - 1];
      assert last !in init by {
        forall i | 0 <= i < |init| ensures init[i] != last {
          assert init[i] == s[i];
        }
      }
      forall k ensures k in init <==> k in keys - {last} {
        if k in init {
          var i :| 0 <= i < |init| && init[i] == k;
          assert s[i] == k;
        }
        if k in s && k != last {
          var i :| 0 <= i < |s| && s[i] == k;
          assert i < |s| - 1 && init[i] == k;
        }
      }
      DistinctCard(init, keys - {last});
    }
  }
}
