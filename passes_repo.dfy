/** The pass repository: every statement it runs on the `passes` and
    `buildings_passes` tables. The first group are the statements of the Postgres
    pass storage; the second group are the remaining store calls the pass services
    make, whose SQL is not part of this model and which are given the smallest
    semantics their callers rely on. */
module PassesRepo {
  import opened Errors
  import opened Domain
  import opened Tables

  /** The row loop of a pass lookup: each joined row is scanned into one item, and a
      NULL comment is read as "". */
  method ScanPassItems(rows: seq<JoinedRow>) returns (items: seq<PassItem>)
    ensures |items| == |rows|
    ensures forall k :: 0 <= k < |rows| ==>
      items[k].building == ModelOf(rows[k].building) && items[k].comment == CommentText(rows[k].comment)
  {
    items := [];
    var i := 0;
    while i < |rows|
      invariant 0 <= i <= |rows|
      invariant |items| == i
      invariant forall k :: 0 <= k < i ==> items[k] == ScanItem(rows[k])
    {
      var c := rows[i].comment;
      var item := PassItem(ModelOf(rows[i].building), CommentText(c));
      items := items + [item];
      i := i + 1;
    }
  }

  /** What the short pass lookup answers: status and creator of the first pass with
      that id, or the repository's "not found" sentinel. */
  function ShortLookup(rows: seq<PassRow>, id: string, faults: set<Call>): (r: Result<PassModel>)
    ensures r.Ok? <==> PassShortQuery !in faults && exists i :: 0 <= i < |rows| && rows[i].id == id
    ensures r.Ok? ==> r.value.id == id && r.value.items == []
  {
    if PassShortQuery in faults then Err(Db(PassShortQuery))
    else match FindPass(rows, PassWithId(id))
      case None => Err(NotFound)
      case Some(p) => Ok(PassModel(id, p.status, p.creator, [], "", 0))
  }

  class Storage {
    const db: Database

    constructor (db: Database)
      ensures this.db == db
    {
      this.db := db;
    }

    // ------------------------------------------------ the Postgres pass storage

    /** Looks up a draft pass by id and the buildings attached to it. Only rows with
        status 0 are visible, so a pass in any other status reads as "pass not found". */
    method Pass(id: string, faults: set<Call>) returns (r: Result<PassModel>)
      ensures r.Ok? <==> PassQuery !in faults && FindPass(db.passes, DraftWithId(id)).Some? && PassItemsQuery !in faults
      ensures r.Err? ==>
        r.error == (if PassQuery in faults then Db(PassQuery)
                    else if FindPass(db.passes, DraftWithId(id)).None? then Message("pass not found")
                    else Db(PassItemsQuery))
      ensures r.Ok? ==>
        var p := FindPass(db.passes, DraftWithId(id)).value;
        var rows := JoinRows(db.passBuildings, db.buildings, id);
        && r.value.id == id && r.value.status == 0 && r.value.creatorId == ""
        && r.value.visitorName == p.visitor && r.value.dateVisit == p.visitDate
        && |r.value.items| == |rows|
        && forall k :: 0 <= k < |rows| ==> r.value.items[k] == ScanItem(rows[k])
    {
      if PassQuery in faults {
        return Err(Db(PassQuery));
      }
      var found := FindPass(db.passes, DraftWithId(id));
      if found.None? {
        return Err(Message("pass not found"));
      }
      if PassItemsQuery in faults {
        return Err(Db(PassItemsQuery));
      }
      var rows := JoinRows(db.passBuildings, db.buildings, id);
      var items := ScanPassItems(rows);
      r := Ok(PassModel(id, 0, "", items, found.value.visitor, found.value.visitDate));
    }

    /** The id of the creator's draft, or "" without an error when there is none. */
    method ID(uid: string, faults: set<Call>) returns (r: Result<string>)
      ensures r.Err? <==> IdQuery in faults
      ensures r.Err? ==> r.error == Db(IdQuery)
      ensures r.Ok? && FindPass(db.passes, DraftOf(uid)).None? ==> r.value == ""
      ensures r.Ok? && FindPass(db.passes, DraftOf(uid)).Some? ==> r.value == FindPass(db.passes, DraftOf(uid)).value.id
    {
      if IdQuery in faults {
        return Err(Db(IdQuery));
      }
      var found := FindPass(db.passes, DraftOf(uid));
      if found.None? {
        return Ok("");
      }
      return Ok(found.value.id);
    }

    /** Attaches a building to a pass. No check is made that the building is not
        already attached. */
    method AddToPass(recordID: string, id: string, buildingID: string, faults: set<Call>) returns (r: Outcome)
      modifies db
      ensures r.Failure? <==> AddToPassExec in faults
      ensures r.Failure? ==> r.error == Db(AddToPassExec) && unchanged(db)
      ensures r.Success? ==> db.passBuildings == old(db.passBuildings) + [NewItemRow(recordID, buildingID, id)]
      ensures db.passes == old(db.passes) && db.buildings == old(db.buildings) && db.users == old(db.users)
    {
      if AddToPassExec in faults {
        return Failure(Db(AddToPassExec));
      }
      db.passBuildings := db.passBuildings + [NewItemRow(recordID, buildingID, id)];
      return Success;
    }

    /** `UPDATE passes SET status = 1`: the code it writes is the Formed code, not the
        Deleted one, and a missing id is not reported. */
    method Delete(id: string, faults: set<Call>) returns (r: Outcome)
      modifies db
      ensures r.Failure? <==> DeletePassExec in faults
      ensures r.Failure? ==> r.error == Db(DeletePassExec) && unchanged(db)
      ensures r.Success? ==> db.passes == UpdatePasses(old(db.passes), id, SetStatus(StatusFormed))
      ensures r.Success? ==> forall i :: 0 <= i < |db.passes| && db.passes[i].id == id ==> db.passes[i].status == StatusFormed
      ensures db.passBuildings == old(db.passBuildings) && db.buildings == old(db.buildings) && db.users == old(db.users)
    {
      if DeletePassExec in faults {
        return Failure(Db(DeletePassExec));
      }
      db.passes := UpdatePasses(db.passes, id, SetStatus(1));
      return Success;
    }

    /** Inserts a pass with status 0, whatever status the caller has in mind; the
        creation date is the current time `now`. */
    method NewDraftPass(id: string, uid: string, visitor: string, visitDate: Time, now: Time, faults: set<Call>) returns (r: Outcome)
      modifies db
      ensures r.Failure? <==> NewDraftPassExec in faults
      ensures r.Failure? ==> r.error == Db(NewDraftPassExec) && unchanged(db)
      ensures r.Success? ==> db.passes == old(db.passes) + [NewDraftRow(id, uid, now, visitor, visitDate)]
      ensures r.Success? ==> db.passes[|db.passes| - 1].status == StatusDraft
      ensures db.passBuildings == old(db.passBuildings) && db.buildings == old(db.buildings) && db.users == old(db.users)
    {
      if NewDraftPassExec in faults {
        return Failure(Db(NewDraftPassExec));
      }
      db.passes := db.passes + [NewDraftRow(id, uid, now, visitor, visitDate)];
      return Success;
    }

    /** The id of the creator's draft; unlike `ID`, a creator without a draft is an error. */
    method DraftPassIDByCreator(uid: string, faults: set<Call>) returns (r: Result<string>)
      ensures r.Ok? <==> DraftIdQuery !in faults && FindPass(db.passes, DraftOf(uid)).Some?
      ensures r.Ok? ==> r.value == FindPass(db.passes, DraftOf(uid)).value.id
      ensures r.Err? ==> r.error == if DraftIdQuery in faults then Db(DraftIdQuery) else Message("pass not found")
    {
      if DraftIdQuery in faults {
        return Err(Db(DraftIdQuery));
      }
      var found := FindPass(db.passes, DraftOf(uid));
      if found.None? {
        return Err(Message("pass not found"));
      }
      return Ok(found.value.id);
    }

    /** The number of buildings in the creator's draft (0 for an empty draft); a
        creator without a draft is an error. */
    method ItemsCount(uid: string, faults: set<Call>) returns (r: Result<int>)
      ensures r.Ok? <==> ItemsCountQuery !in faults && FindPass(db.passes, DraftOf(uid)).Some?
      ensures r.Ok? ==> r.value == DraftItemCount(db.passes, db.passBuildings, uid)
      ensures r.Ok? && OneDraftPerCreator(db.passes) ==>
        r.value == CountItems(db.passBuildings, ItemsOf(FindPass(db.passes, DraftOf(uid)).value.id))
      ensures r.Err? ==> r.error == if ItemsCountQuery in faults then Db(ItemsCountQuery) else Message("pass not found")
    {
      if ItemsCountQuery in faults {
        return Err(Db(ItemsCountQuery));
      }
      if FindPass(db.passes, DraftOf(uid)).None? {
        return Err(Message("pass not found"));
      }
      if OneDraftPerCreator(db.passes) {
        DraftItemCountOfOnlyDraft(db.passes, db.passBuildings, uid);
      }
      return Ok(DraftItemCount(db.passes, db.passBuildings, uid));
    }

    // ------------------------------- store calls whose SQL is not in this model

    /** Status and creator of the pass with that id, whatever its status; the
        repository's "not found" sentinel when there is none. */
    method PassShort(id: string, faults: set<Call>) returns (r: Result<PassModel>)
      ensures r == ShortLookup(db.passes, id, faults)
      ensures r.Ok? <==> PassShortQuery !in faults && FindPass(db.passes, PassWithId(id)).Some?
      ensures r.Ok? ==>
        var p := FindPass(db.passes, PassWithId(id)).value;
        r.value == PassModel(id, p.status, p.creator, [], "", 0)
      ensures r.Err? ==> r.error == if PassShortQuery in faults then Db(PassShortQuery) else NotFound
    {
      if PassShortQuery in faults {
        return Err(Db(PassShortQuery));
      }
      var found := FindPass(db.passes, PassWithId(id));
      if found.None? {
        return Err(NotFound);
      }
      return Ok(PassModel(id, found.value.status, found.value.creator, [], "", 0));
    }

    /** A status change made by the pass holder, stamped with `at`. */
    method EditPassStatusByUser(id: string, status: int, at: Time, faults: set<Call>) returns (r: Outcome)
      modifies db
      ensures r.Failure? <==> StatusByUserExec in faults
      ensures r.Failure? ==> r.error == Db(StatusByUserExec) && unchanged(db)
      ensures r.Success? ==> db.passes == UpdatePasses(old(db.passes), id, SetStatusByUser(status, at))
      ensures db.passBuildings == old(db.passBuildings) && db.buildings == old(db.buildings) && db.users == old(db.users)
    {
      if StatusByUserExec in faults {
        return Failure(Db(StatusByUserExec));
      }
      db.passes := UpdatePasses(db.passes, id, SetStatusByUser(status, at));
      return Success;
    }

    /** A status change made by a moderator, stamped with `at` and the moderator's id. */
    method EditPassStatusByModerator(id: string, status: int, at: Time, moderatorId: string, faults: set<Call>) returns (r: Outcome)
      modifies db
      ensures r.Failure? <==> StatusByModeratorExec in faults
      ensures r.Failure? ==> r.error == Db(StatusByModeratorExec) && unchanged(db)
      ensures r.Success? ==> db.passes == UpdatePasses(old(db.passes), id, SetStatusByModerator(status, at, moderatorId))
      ensures db.passBuildings == old(db.passBuildings) && db.buildings == old(db.buildings) && db.users == old(db.users)
    {
      if StatusByModeratorExec in faults {
        return Failure(Db(StatusByModeratorExec));
      }
      db.passes := UpdatePasses(db.passes, id, SetStatusByModerator(status, at, moderatorId));
      return Success;
    }

    /** Marks every building of the pass as visited. */
    method EditWasVisitedForPass(id: string, faults: set<Call>) returns (r: Outcome)
      modifies db
      ensures r.Failure? <==> WasVisitedExec in faults
      ensures r.Failure? ==> r.error == Db(WasVisitedExec) && unchanged(db)
      ensures r.Success? ==> db.passBuildings == UpdateItems(old(db.passBuildings), ItemsOf(id), MarkVisited)
      ensures db.passes == old(db.passes) && db.buildings == old(db.buildings) && db.users == old(db.users)
    {
      if WasVisitedExec in faults {
        return Failure(Db(WasVisitedExec));
      }
      db.passBuildings := UpdateItems(db.passBuildings, ItemsOf(id), MarkVisited);
      return Success;
    }

    /** Replaces the visitor name and the visit date of the pass, whatever its status. */
    method EditPass(id: string, visitor: string, visitDate: Time, faults: set<Call>) returns (r: Outcome)
      modifies db
      ensures r.Failure? <==> EditPassExec in faults
      ensures r.Failure? ==> r.error == Db(EditPassExec) && unchanged(db)
      ensures r.Success? ==> db.passes == UpdatePasses(old(db.passes), id, SetVisitor(visitor, visitDate))
      ensures db.passBuildings == old(db.passBuildings) && db.buildings == old(db.buildings) && db.users == old(db.users)
    {
      if EditPassExec in faults {
        return Failure(Db(EditPassExec));
      }
      db.passes := UpdatePasses(db.passes, id, SetVisitor(visitor, visitDate));
      return Success;
    }

    /** Replaces the comment of one building of a pass; "not found" when the pass has
        no such building. */
    method EditPassBuildingComment(passID: string, buildingID: string, comment: string, faults: set<Call>) returns (r: Outcome)
      modifies db
      ensures r.Failure? <==> EditCommentExec in faults || CountItems(old(db.passBuildings), ItemOfPair(passID, buildingID)) == 0
      ensures r.Failure? ==> unchanged(db)
      ensures r.Failure? ==> r.error == if EditCommentExec in faults then Db(EditCommentExec) else NotFound
      ensures r.Success? ==> db.passBuildings == UpdateItems(old(db.passBuildings), ItemOfPair(passID, buildingID), SetComment(comment))
      ensures db.passes == old(db.passes) && db.buildings == old(db.buildings) && db.users == old(db.users)
    {
      if EditCommentExec in faults {
        return Failure(Db(EditCommentExec));
      }
      var w := ItemOfPair(passID, buildingID);
      var affected := CountItems(db.passBuildings, w);
      if affected == 0 {
        UpdateNoItem(db.passBuildings, w, SetComment(comment));
      }
      db.passBuildings := UpdateItems(db.passBuildings, w, SetComment(comment));
      if affected == 0 {
        return Failure(NotFound);
      }
      return Success;
    }

    /** Removes one building from a pass; "not found" when the pass has no such building. */
    method DeleteBuildingFromPass(passID: string, buildingID: string, faults: set<Call>) returns (r: Outcome)
      modifies db
      ensures r.Failure? <==> DeleteItemExec in faults || CountItems(old(db.passBuildings), ItemOfPair(passID, buildingID)) == 0
      ensures r.Failure? ==> unchanged(db)
      ensures r.Failure? ==> r.error == if DeleteItemExec in faults then Db(DeleteItemExec) else NotFound
      ensures r.Success? ==> db.passBuildings == RemoveItems(old(db.passBuildings), ItemOfPair(passID, buildingID))
      ensures db.passes == old(db.passes) && db.buildings == old(db.buildings) && db.users == old(db.users)
    {
      if DeleteItemExec in faults {
        return Failure(Db(DeleteItemExec));
      }
      var w := ItemOfPair(passID, buildingID);
      var affected := CountItems(db.passBuildings, w);
      if affected == 0 {
        RemoveNoItem(db.passBuildings, w);
      }
      db.passBuildings := RemoveItems(db.passBuildings, w);
      if affected == 0 {
        return Failure(NotFound);
      }
      return Success;
    }
  }
}
