/** The building catalogue service: catalogue queries open to everyone, and the
    admin-only mutations that write the building table and the picture bucket, with
    repository errors translated into business errors. */
module BuildingService {
  import opened Errors
  import opened Domain
  import opened Tables
  import opened Auth
  import BuildingsRepo
  import S3Minio

  /** The bucket whose name the service writes into picture addresses. */
  const BuildImagesBucket: string := "services"

  /** The claims-and-role check every mutation starts with. */
  function AdminCheck(verify: Verifier, token: string): (r: Outcome)
    ensures r.Success? <==> verify(token).Some? && verify(token).value.isAdmin
    ensures r.Failure? ==> r.error == if verify(token).None? then Biz(AuthToken) else Biz(NoPermission)
  {
    match Claims(verify, token)
    case Err(_) => Failure(Biz(AuthToken))
    case Ok(identity) => if identity.isAdmin then Success else Failure(Biz(NoPermission))
  }

  /** A failed single-building lookup: a missing building, or anything else. */
  function LookupError(e: Error): (b: Error)
    ensures e == NotFound <==> b == Biz(BuildingNotFound)
    ensures b == Biz(BuildingNotFound) || b == Biz(InternalServer)
  {
    if e == NotFound then Biz(BuildingNotFound) else Biz(InternalServer)
  }

  /** A failed catalogue search: nothing found, or anything else. */
  function SearchError(e: Error): (b: Error)
    ensures e == NotFound <==> b == Biz(BuildingsNotFound)
    ensures b == Biz(BuildingsNotFound) || b == Biz(InternalServer)
  {
    if e == NotFound then Biz(BuildingsNotFound) else Biz(InternalServer)
  }

  /** A failed building update: no such building, or anything else. */
  function EditError(e: Error): (b: Error)
    ensures e == NotFound <==> b == Biz(InvalidBuilding)
    ensures b == Biz(InvalidBuilding) || b == Biz(InternalServer)
  {
    if e == NotFound then Biz(InvalidBuilding) else Biz(InternalServer)
  }

  /** Some active building has that id. */
  predicate HasActive(rows: seq<BuildingRow>, id: string) {
    exists i :: 0 <= i < |rows| && ActiveWithId(id).Holds(rows[i])
  }

  /** The address the service writes for a replaced picture is the object store's
      address of that picture exactly when the store's picture bucket is the
      service's fixed bucket name. */
  lemma ServiceUrlIsStoreUrl(bucket: string, id: string)
    ensures "/" + BuildImagesBucket + "/" + id + ".png" == S3Minio.PhotoUrl(bucket, id) <==> bucket == BuildImagesBucket
  {
    var mine := "/" + BuildImagesBucket + "/" + id + ".png";
    var theirs := S3Minio.PhotoUrl(bucket, id);
    assert mine == "/" + BuildImagesBucket + "/" + S3Minio.ObjectKey(id);
    if mine == theirs {
      assert |bucket| == |BuildImagesBucket|;
      assert mine[1..1 + |bucket|] == BuildImagesBucket;
      assert theirs[1..1 + |bucket|] == bucket;
    }
  }

  class BuildingService {
    const verify: Verifier
    const buildings: BuildingsRepo.Storage
    const photos: S3Minio.MinioRepository

    constructor (verify: Verifier, buildings: BuildingsRepo.Storage, photos: S3Minio.MinioRepository)
      ensures this.verify == verify && this.buildings == buildings && this.photos == photos
    {
      this.verify := verify;
      this.buildings := buildings;
      this.photos := photos;
    }

    // ------------------------------------------------------------- queries

    /** Every active building, in the row order this model fixes. */
    method GetAllBuildings(faults: set<Call>) returns (r: Result<seq<Building>>)
      ensures r.Err? <==> AllBuildingsQuery in faults
      ensures r.Err? ==> r.error == Biz(InternalServer)
      ensures r.Ok? ==>
        var rows := SelectBuildings(buildings.db.buildings, AllActive);
        |r.value| == |rows| && forall k :: 0 <= k < |rows| ==> r.value[k] == ModelOf(rows[k])
    {
      var all := buildings.AllBuildings(faults);
      if all.Err? {
        return Err(Biz(InternalServer));
      }
      return Ok(all.value);
    }

    /** The active buildings whose name contains `buildingName`; the empty name asks
        for the whole catalogue. */
    method FindBuildings(buildingName: string, faults: set<Call>) returns (r: Result<seq<Building>>)
      ensures buildingName == "" ==> (r.Err? <==> AllBuildingsQuery in faults)
      ensures buildingName != "" ==> (r.Err? <==> FindBuildingsQuery in faults)
      ensures r.Err? ==> r.error == Biz(InternalServer)
      ensures r.Ok? ==>
        var rows := SelectBuildings(buildings.db.buildings, ActiveNameLike(buildingName));
        |r.value| == |rows| && forall k :: 0 <= k < |rows| ==> r.value[k] == ModelOf(rows[k])
    {
      if buildingName == "" {
        EmptyPatternSelectsAllActive(buildings.db.buildings);
        r := GetAllBuildings(faults);
        return;
      }
      var found := buildings.FindBuildings(buildingName, faults);
      if found.Err? {
        return Err(SearchError(found.error));
      }
      return Ok(found.value);
    }

    /** The active building with that id. */
    method GetBuilding(id: string, faults: set<Call>) returns (r: Result<Building>)
      ensures r.Ok? <==> BuildingQuery !in faults && HasActive(buildings.db.buildings, id)
      ensures r.Ok? ==> r.value == ModelOf(buildings.db.buildings[FirstBuilding(buildings.db.buildings, ActiveWithId(id))])
      ensures r.Err? ==> r.error == if BuildingQuery in faults then Biz(InternalServer) else Biz(BuildingNotFound)
    {
      var b := buildings.Building(id, faults);
      if b.Err? {
        return Err(LookupError(b.error));
      }
      return Ok(b.value);
    }

    /** Whether the token's holder may edit the catalogue. */
    method CheckEditAccess(accessToken: string) returns (r: Outcome)
      ensures r.Success? <==> verify(accessToken).Some? && verify(accessToken).value.isAdmin
      ensures r.Failure? ==> r.error == if verify(accessToken).None? then Biz(AuthToken) else Biz(NoPermission)
    {
      r := AdminCheck(verify, accessToken);
    }

    // ----------------------------------------------------------- mutations

    /** Adds an active building with a fresh id. */
    method AddBuilding(accessToken: string, name: string, description: string, freshId: string, faults: set<Call>)
      returns (r: Outcome)
      modifies buildings.db
      ensures AdminCheck(verify, accessToken).Failure? ==> r == AdminCheck(verify, accessToken) && unchanged(buildings.db)
      ensures AdminCheck(verify, accessToken).Success? && SaveBuildingExec in faults ==>
        r == Failure(Biz(InternalServer)) && unchanged(buildings.db)
      ensures AdminCheck(verify, accessToken).Success? && SaveBuildingExec !in faults ==> (r == Success &&
        buildings.db.buildings == old(buildings.db.buildings) + [BuildingRow(freshId, name, description, true, "/")])
      ensures buildings.db.passes == old(buildings.db.passes) && buildings.db.passBuildings == old(buildings.db.passBuildings)
      ensures buildings.db.users == old(buildings.db.users)
    {
      var access := AdminCheck(verify, accessToken);
      if access.Failure? {
        return access;
      }
      var saved := buildings.SaveBuilding(Building(freshId, name, description, ""), faults);
      if saved.Failure? {
        return Failure(Biz(InternalServer));
      }
      return Success;
    }

    /** Replaces name and description of an active building. */
    method EditBuilding(accessToken: string, buildingID: string, name: string, description: string, faults: set<Call>)
      returns (r: Outcome)
      modifies buildings.db
      ensures AdminCheck(verify, accessToken).Failure? ==> r == AdminCheck(verify, accessToken) && unchanged(buildings.db)
      ensures AdminCheck(verify, accessToken).Success? ==>
        && (InfoExec in faults ==> r == Failure(Biz(InternalServer)) && unchanged(buildings.db))
        && (InfoExec !in faults && CountBuildings(old(buildings.db.buildings), ActiveWithId(buildingID)) == 0 ==>
              r == Failure(Biz(InvalidBuilding)) && unchanged(buildings.db))
        && (InfoExec !in faults && CountBuildings(old(buildings.db.buildings), ActiveWithId(buildingID)) > 0 ==>
              r == Success &&
              buildings.db.buildings == UpdateBuildings(old(buildings.db.buildings), ActiveWithId(buildingID), SetInfo(name, description)))
      ensures buildings.db.passes == old(buildings.db.passes) && buildings.db.passBuildings == old(buildings.db.passBuildings)
      ensures buildings.db.users == old(buildings.db.users)
    {
      var access := AdminCheck(verify, accessToken);
      if access.Failure? {
        return access;
      }
      var edited := buildings.EditBuildingInfo(Building(buildingID, name, description, ""), faults);
      if edited.Failure? {
        return Failure(EditError(edited.error));
      }
      return Success;
    }

    /** Withdraws a building from the catalogue, then deletes its picture. A failed
        existence check other than "not found" is ignored; a failed picture delete is
        reported after the building has already been withdrawn. */
    method DeleteBuilding(accessToken: string, buildingID: string, faults: set<Call>) returns (r: Outcome)
      modifies buildings.db, photos
      ensures AdminCheck(verify, accessToken).Failure? ==>
        r == AdminCheck(verify, accessToken) && unchanged(buildings.db) && unchanged(photos)
      ensures AdminCheck(verify, accessToken).Success? ==>
        var seen := BuildingQuery in faults || HasActive(old(buildings.db.buildings), buildingID);
        var matched := CountBuildings(old(buildings.db.buildings), BuildingWithId(buildingID)) > 0;
        && (!seen ==> r == Failure(Biz(InvalidBuilding)) && unchanged(buildings.db) && unchanged(photos))
        && (seen && StatusExec in faults ==> r == Failure(Biz(InternalServer)) && unchanged(buildings.db) && unchanged(photos))
        && (seen && StatusExec !in faults && !matched ==>
              r == Failure(Biz(InvalidBuilding)) && unchanged(buildings.db) && unchanged(photos))
        && (seen && StatusExec !in faults && matched ==>
              && buildings.db.buildings == UpdateBuildings(old(buildings.db.buildings), BuildingWithId(buildingID), SetActive(false))
              && (RemovePreview in faults ==> r == Failure(Biz(InternalServer)) && unchanged(photos))
              && (RemovePreview !in faults ==> r == Success && photos.photos == old(photos.photos) - {S3Minio.ObjectKey(buildingID)}))
      ensures buildings.db.passes == old(buildings.db.passes) && buildings.db.passBuildings == old(buildings.db.passBuildings)
      ensures buildings.db.users == old(buildings.db.users) && photos.qrCodes == old(photos.qrCodes)
    {
      var access := AdminCheck(verify, accessToken);
      if access.Failure? {
        return access;
      }
      var existing := buildings.Building(buildingID, faults);
      if existing.Err? && existing.error == NotFound {
        return Failure(Biz(InvalidBuilding));
      }
      var withdrawn := buildings.EditBuildingStatus(buildingID, false, faults);
      if withdrawn.Failure? {
        return Failure(EditError(withdrawn.error));
      }
      var removed := photos.DeleteBuildingPreview(buildingID, faults);
      if removed.Failure? {
        return Failure(Biz(InternalServer));
      }
      return Success;
    }

    /** Replaces the picture of an active building: deletes the old picture (a failed
        delete is ignored), stores the new one, then points the building at it. */
    method EditBuildingPreview(accessToken: string, id: string, photo: seq<S3Minio.byte>, faults: set<Call>)
      returns (r: Outcome)
      modifies buildings.db, photos
      ensures AdminCheck(verify, accessToken).Failure? ==>
        r == AdminCheck(verify, accessToken) && unchanged(buildings.db) && unchanged(photos)
      ensures AdminCheck(verify, accessToken).Success? ==>
        var found := BuildingQuery !in faults && HasActive(old(buildings.db.buildings), id);
        var cleared := if RemovePreview in faults then old(photos.photos) else old(photos.photos) - {S3Minio.ObjectKey(id)};
        // a missing building is reported before the bucket is touched
        && (!found ==> (r == Failure(LookupError(if BuildingQuery in faults then Db(BuildingQuery) else NotFound)) &&
              unchanged(buildings.db) && unchanged(photos)))
        && (found && PutPreview in faults ==>
              r == Failure(Biz(InternalServer)) && unchanged(buildings.db) && photos.photos == cleared)
        && (found && PutPreview !in faults ==>
              && photos.photos == cleared[S3Minio.ObjectKey(id) := photo]
              && (ImgUrlExec in faults ==> r == Failure(Biz(InternalServer)) && unchanged(buildings.db))
              && (ImgUrlExec !in faults ==> (r == Success &&
                    buildings.db.buildings == UpdateBuildings(old(buildings.db.buildings), BuildingWithId(id),
                      SetImgUrl(S3Minio.PhotoUrl(BuildImagesBucket, id))))))
      // on success the building points at its new picture exactly when the store's
      // picture bucket is the one the service names
      ensures r.Success? ==> S3Minio.ObjectKey(id) in photos.photos && photos.photos[S3Minio.ObjectKey(id)] == photo
      ensures r.Success? ==> forall i :: 0 <= i < |buildings.db.buildings| && buildings.db.buildings[i].id == id ==>
        (buildings.db.buildings[i].imgUrl == S3Minio.PhotoUrl(photos.photosBucket, id) <==> photos.photosBucket == BuildImagesBucket)
      ensures buildings.db.passes == old(buildings.db.passes) && buildings.db.passBuildings == old(buildings.db.passBuildings)
      ensures buildings.db.users == old(buildings.db.users) && photos.qrCodes == old(photos.qrCodes)
    {
      var access := AdminCheck(verify, accessToken);
      if access.Failure? {
        return access;
      }
      var existing := buildings.Building(id, faults);
      if existing.Err? {
        return Failure(LookupError(existing.error));
      }
      var removed := photos.DeleteBuildingPreview(id, faults);
      var saved := photos.SaveBuildingPreview(id, photo, faults);
      if saved.Failure? {
        return Failure(Biz(InternalServer));
      }
      var imgUrl := "/" + BuildImagesBucket + "/" + id + ".png";
      ServiceUrlIsStoreUrl(BuildImagesBucket, id);
      ServiceUrlIsStoreUrl(photos.photosBucket, id);
      var pointed := buildings.EditBuildingImgUrl(id, imgUrl, faults);
      if pointed.Failure? {
        return Failure(Biz(InternalServer));
      }
      return Success;
    }
  }
}
