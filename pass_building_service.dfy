/** The pass-item service: editing the comment of, or removing, one building of a
    pass. Both operations run the same chain of checks (token claims, the pass
    exists, the caller created it, it is still a draft) and end in exactly one store
    write, whose failure is translated into a business error. */
module PassBuildingService {
  import opened Errors
  import opened Domain
  import opened Tables
  import opened Auth
  import PassesRepo

  /** The checks between the claims and the store write, on the answer of the short
      pass lookup. Ownership is checked before status. */
  function Guard(uid: string, lookup: Result<PassModel>): (r: Outcome)
    ensures r.Success? <==> lookup.Ok? && lookup.value.creatorId == uid && lookup.value.status == StatusDraft
    ensures lookup.Err? ==> r.Failure? && r.error == Biz(if lookup.error == NotFound then InvalidPass else InternalServer)
    ensures lookup.Ok? && lookup.value.creatorId != uid ==> r == Failure(Biz(InvalidPass))
    ensures lookup.Ok? && lookup.value.creatorId == uid && lookup.value.status != StatusDraft ==> r == Failure(Biz(PassIsNotDraft))
  {
    match lookup
    case Err(e) => if e == NotFound then Failure(Biz(InvalidPass)) else Failure(Biz(InternalServer))
    case Ok(pass) =>
      if pass.creatorId != uid then Failure(Biz(InvalidPass))
      else if pass.status != StatusDraft then Failure(Biz(PassIsNotDraft))
      else Success
  }

  /** The business error a failed store write becomes. */
  function EditorError(e: Error): (b: Error)
    ensures b == Biz(InvalidPassBuilding) <==> e == NotFound
    ensures b != Biz(InvalidPassBuilding) ==> b == Biz(InternalServer)
  {
    if e == NotFound then Biz(InvalidPassBuilding) else Biz(InternalServer)
  }

  /** The guard never answers "no permission": another user's pass is reported as an
      invalid pass, whatever its status. */
  lemma GuardErrors(uid: string, lookup: Result<PassModel>)
    ensures Guard(uid, lookup) != Failure(Biz(NoPermission))
    ensures lookup.Ok? && lookup.value.creatorId != uid ==>
      Guard(uid, lookup) == Guard(uid, Ok(lookup.value.(status := StatusDraft)))
  {
  }

  /** On the pass table, the guard passes exactly when the first pass with that id was
      created by the caller and is still a draft. */
  lemma GuardOnTable(uid: string, rows: seq<PassRow>, id: string, faults: set<Call>)
    requires PassShortQuery !in faults
    ensures Guard(uid, PassesRepo.ShortLookup(rows, id, faults)).Success? <==>
      var k := FirstPass(rows, PassWithId(id));
      k < |rows| && rows[k].creator == uid && rows[k].status == StatusDraft
    ensures (forall i :: 0 <= i < |rows| ==> rows[i].id != id) ==>
      Guard(uid, PassesRepo.ShortLookup(rows, id, faults)) == Failure(Biz(InvalidPass))
  {
    var k := FirstPass(rows, PassWithId(id));
    if k < |rows| {
      assert FindPass(rows, PassWithId(id)) == Some(rows[k]);
    } else {
      assert FindPass(rows, PassWithId(id)).None?;
    }
  }

  class PassBuildingService {
    const verify: Verifier
    const store: PassesRepo.Storage

    constructor (verify: Verifier, store: PassesRepo.Storage)
      ensures this.verify == verify && this.store == store
    {
      this.verify := verify;
      this.store := store;
    }

    /** Replaces the holder's comment on one building of their draft. */
    method Edit(accessToken: string, passID: string, buildingID: string, newComment: string, faults: set<Call>)
      returns (r: Outcome)
      modifies store.db
      // a token that does not verify: its error is returned and the store is not touched
      ensures verify(accessToken).None? ==> r == Failure(Biz(AuthToken)) && unchanged(store.db)
      ensures verify(accessToken).Some? ==>
        var guard := Guard(verify(accessToken).value.uid, PassesRepo.ShortLookup(old(store.db.passes), passID, faults));
        var w := ItemOfPair(passID, buildingID);
        && (guard.Failure? ==> r == guard && unchanged(store.db))
        && (guard.Success? && EditCommentExec in faults ==> r == Failure(Biz(InternalServer)) && unchanged(store.db))
        && (guard.Success? && EditCommentExec !in faults && CountItems(old(store.db.passBuildings), w) == 0 ==>
              r == Failure(Biz(InvalidPassBuilding)) && unchanged(store.db))
        && (guard.Success? && EditCommentExec !in faults && CountItems(old(store.db.passBuildings), w) > 0 ==>
              r == Success && store.db.passBuildings == UpdateItems(old(store.db.passBuildings), w, SetComment(newComment)))
      // only the (passID, buildingID) association can change
      ensures |store.db.passBuildings| == |old(store.db.passBuildings)|
      ensures forall i :: 0 <= i < |store.db.passBuildings| && !ItemOfPair(passID, buildingID).Holds(old(store.db.passBuildings)[i]) ==>
        store.db.passBuildings[i] == old(store.db.passBuildings)[i]
      ensures store.db.passes == old(store.db.passes)
      ensures store.db.buildings == old(store.db.buildings) && store.db.users == old(store.db.users)
    {
      var claims := Claims(verify, accessToken);
      if claims.Err? {
        return Failure(claims.error);
      }
      var pass := store.PassShort(passID, faults);
      var guard := Guard(claims.value.uid, pass);
      if guard.Failure? {
        return guard;
      }
      var written := store.EditPassBuildingComment(passID, buildingID, newComment, faults);
      if written.Failure? {
        return Failure(EditorError(written.error));
      }
      return Success;
    }

    /** Removes one building from the holder's draft. */
    method Delete(accessToken: string, passID: string, buildingID: string, faults: set<Call>)
      returns (r: Outcome)
      modifies store.db
      ensures verify(accessToken).None? ==> r == Failure(Biz(AuthToken)) && unchanged(store.db)
      ensures verify(accessToken).Some? ==>
        var guard := Guard(verify(accessToken).value.uid, PassesRepo.ShortLookup(old(store.db.passes), passID, faults));
        var w := ItemOfPair(passID, buildingID);
        && (guard.Failure? ==> r == guard && unchanged(store.db))
        && (guard.Success? && DeleteItemExec in faults ==> r == Failure(Biz(InternalServer)) && unchanged(store.db))
        && (guard.Success? && DeleteItemExec !in faults && CountItems(old(store.db.passBuildings), w) == 0 ==>
              r == Failure(Biz(InvalidPassBuilding)) && unchanged(store.db))
        && (guard.Success? && DeleteItemExec !in faults && CountItems(old(store.db.passBuildings), w) > 0 ==>
              r == Success && store.db.passBuildings == RemoveItems(old(store.db.passBuildings), w))
      // the association rows left are the old ones minus those of (passID, buildingID)
      ensures r.Success? ==> forall x :: x in store.db.passBuildings <==>
        x in old(store.db.passBuildings) && !ItemOfPair(passID, buildingID).Holds(x)
      ensures store.db.passes == old(store.db.passes)
      ensures store.db.buildings == old(store.db.buildings) && store.db.users == old(store.db.users)
    {
      var claims := Claims(verify, accessToken);
      if claims.Err? {
        return Failure(claims.error);
      }
      var pass := store.PassShort(passID, faults);
      var guard := Guard(claims.value.uid, pass);
      if guard.Failure? {
        return guard;
      }
      ghost var before := store.db.passBuildings;
      var written := store.DeleteBuildingFromPass(passID, buildingID, faults);
      if written.Failure? {
        return Failure(EditorError(written.error));
      }
      RemoveItemsSpec(before, ItemOfPair(passID, buildingID));
      return Success;
    }
  }
}
