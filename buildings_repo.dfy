/** The Postgres building repository: the statements it runs on the `buildings` table. */
module BuildingsRepo {
  import opened Errors
  import opened Domain
  import opened Tables
  import opened Strings

  /** The row loop of a catalogue query: each selected row is scanned into a model. */
  method ScanBuildings(rows: seq<BuildingRow>) returns (models: seq<Building>)
    ensures |models| == |rows|
    ensures forall k :: 0 <= k < |rows| ==> models[k] == ModelOf(rows[k])
  {
    models := [];
    var i := 0;
    while i < |rows|
      invariant 0 <= i <= |rows|
      invariant |models| == i
      invariant forall k :: 0 <= k < i ==> models[k] == ModelOf(rows[k])
    {
      models := models + [ModelOf(rows[i])];
      i := i + 1;
    }
  }

  /** A catalogue query answers exactly the active buildings its filter selects. */
  lemma CatalogueMembership(rows: seq<BuildingRow>, f: BuildingFilter, models: seq<Building>)
    requires |models| == |SelectBuildings(rows, f)|
    requires forall k :: 0 <= k < |models| ==> models[k] == ModelOf(SelectBuildings(rows, f)[k])
    ensures forall m :: m in models <==> exists b :: b in rows && f.Selects(b) && ModelOf(b) == m
  {
    SelectBuildingsSpec(rows, f);
    var sel := SelectBuildings(rows, f);
    forall m | m in models
      ensures exists b :: b in rows && f.Selects(b) && ModelOf(b) == m
    {
      var k :| 0 <= k < |models| && models[k] == m;
      assert sel[k] in sel;
    }
    forall m | exists b :: b in rows && f.Selects(b) && ModelOf(b) == m
      ensures m in models
    {
      var b :| b in rows && f.Selects(b) && ModelOf(b) == m;
      assert b in sel;
      var k :| 0 <= k < |sel| && sel[k] == b;
      assert models[k] == m;
    }
  }

  class Storage {
    const db: Database

    constructor (db: Database)
      ensures this.db == db
    {
      this.db := db;
    }

    /** Every active building, in the row order this model fixes. */
    method AllBuildings(faults: set<Call>) returns (r: Result<seq<Building>>)
      ensures r.Err? <==> AllBuildingsQuery in faults
      ensures r.Err? ==> r.error == Db(AllBuildingsQuery)
      ensures r.Ok? ==>
        var rows := SelectBuildings(db.buildings, AllActive);
        |r.value| == |rows| && forall k :: 0 <= k < |rows| ==> r.value[k] == ModelOf(rows[k])
    {
      if AllBuildingsQuery in faults {
        return Err(Db(AllBuildingsQuery));
      }
      var models := ScanBuildings(SelectBuildings(db.buildings, AllActive));
      return Ok(models);
    }

    /** The active buildings whose name contains `name`. A query that selects nothing
        answers an empty list, never the "not found" sentinel: a multi-row query does
        not report "no rows". */
    method FindBuildings(name: string, faults: set<Call>) returns (r: Result<seq<Building>>)
      ensures r.Err? <==> FindBuildingsQuery in faults
      ensures r.Err? ==> r.error == Db(FindBuildingsQuery)
      ensures r.Ok? ==>
        var rows := SelectBuildings(db.buildings, ActiveNameLike(name));
        |r.value| == |rows| && forall k :: 0 <= k < |rows| ==> r.value[k] == ModelOf(rows[k])
    {
      if FindBuildingsQuery in faults {
        return Err(Db(FindBuildingsQuery));
      }
      var models := ScanBuildings(SelectBuildings(db.buildings, ActiveNameLike(name)));
      return Ok(models);
    }

    /** The first active building with that id; "not found" when there is none. */
    method Building(id: string, faults: set<Call>) returns (r: Result<Domain.Building>)
      ensures r.Ok? <==> BuildingQuery !in faults && exists i :: 0 <= i < |db.buildings| && ActiveWithId(id).Holds(db.buildings[i])
      ensures r.Ok? ==> r.value == ModelOf(db.buildings[FirstBuilding(db.buildings, ActiveWithId(id))])
      ensures r.Ok? ==> r.value.id == id
      ensures r.Err? ==> r.error == if BuildingQuery in faults then Db(BuildingQuery) else NotFound
    {
      if BuildingQuery in faults {
        return Err(Db(BuildingQuery));
      }
      var k := FirstBuilding(db.buildings, ActiveWithId(id));
      if k == |db.buildings| {
        return Err(NotFound);
      }
      var row := db.buildings[k];
      return Ok(Domain.Building(id, row.name, row.description, row.imgUrl));
    }

    /** Sets the picture address of every building with that id, active or not; a
        missing id is not reported. */
    method EditBuildingImgUrl(id: string, url: string, faults: set<Call>) returns (r: Outcome)
      modifies db
      ensures r.Failure? <==> ImgUrlExec in faults
      ensures r.Failure? ==> r.error == Db(ImgUrlExec) && unchanged(db)
      ensures r.Success? ==> db.buildings == UpdateBuildings(old(db.buildings), BuildingWithId(id), SetImgUrl(url))
      ensures db.passes == old(db.passes) && db.passBuildings == old(db.passBuildings) && db.users == old(db.users)
    {
      if ImgUrlExec in faults {
        return Failure(Db(ImgUrlExec));
      }
      db.buildings := UpdateBuildings(db.buildings, BuildingWithId(id), SetImgUrl(url));
      return Success;
    }

    /** Replaces name and description of the active building with that id; "not
        found" when no active building has it. */
    method EditBuildingInfo(b: Domain.Building, faults: set<Call>) returns (r: Outcome)
      modifies db
      ensures r.Failure? <==> InfoExec in faults || CountBuildings(old(db.buildings), ActiveWithId(b.id)) == 0
      ensures r.Failure? ==> r.error == (if InfoExec in faults then Db(InfoExec) else NotFound) && unchanged(db)
      ensures r.Success? ==> db.buildings == UpdateBuildings(old(db.buildings), ActiveWithId(b.id), SetInfo(b.name, b.description))
      ensures db.passes == old(db.passes) && db.passBuildings == old(db.passBuildings) && db.users == old(db.users)
    {
      if InfoExec in faults {
        return Failure(Db(InfoExec));
      }
      var w := ActiveWithId(b.id);
      var affected := CountBuildings(db.buildings, w);
      if affected == 0 {
        UpdateNothing(db.buildings, w, SetInfo(b.name, b.description));
      }
      db.buildings := UpdateBuildings(db.buildings, w, SetInfo(b.name, b.description));
      if affected == 0 {
        return Failure(NotFound);
      }
      return Success;
    }

    /** Sets the active flag of every building with that id; "not found" when there is none. */
    method EditBuildingStatus(id: string, status: bool, faults: set<Call>) returns (r: Outcome)
      modifies db
      ensures r.Failure? <==> StatusExec in faults || CountBuildings(old(db.buildings), BuildingWithId(id)) == 0
      ensures r.Failure? ==> r.error == (if StatusExec in faults then Db(StatusExec) else NotFound) && unchanged(db)
      ensures r.Success? ==> db.buildings == UpdateBuildings(old(db.buildings), BuildingWithId(id), SetActive(status))
      ensures db.passes == old(db.passes) && db.passBuildings == old(db.passBuildings) && db.users == old(db.users)
    {
      if StatusExec in faults {
        return Failure(Db(StatusExec));
      }
      var w := BuildingWithId(id);
      var affected := CountBuildings(db.buildings, w);
      if affected == 0 {
        UpdateNothing(db.buildings, w, SetActive(status));
      }
      db.buildings := UpdateBuildings(db.buildings, w, SetActive(status));
      if affected == 0 {
        return Failure(NotFound);
      }
      return Success;
    }

    /** Inserts an active building whose picture address is "/". */
    method SaveBuilding(b: Domain.Building, faults: set<Call>) returns (r: Outcome)
      modifies db
      ensures r.Failure? <==> SaveBuildingExec in faults
      ensures r.Failure? ==> r.error == Db(SaveBuildingExec) && unchanged(db)
      ensures r.Success? ==> db.buildings == old(db.buildings) + [NewBuildingRow(b)]
      ensures db.passes == old(db.passes) && db.passBuildings == old(db.passBuildings) && db.users == old(db.users)
    {
      if SaveBuildingExec in faults {
        return Failure(Db(SaveBuildingExec));
      }
      db.buildings := db.buildings + [NewBuildingRow(b)];
      return Success;
    }
  }
}
