/** The pass service: the holder's draft pass, its forming, and the status changes
    users and moderators make. The acting user is the fixed id `userID`; the token
    arguments are accepted and never read. `now`, `newPassID` and `recordID` stand for
    the clock reading and the fresh UUIDs the service draws. */
module PassService {
  import opened Errors
  import opened Domain
  import opened Tables
  import PassesRepo

  class PassService {
    const store: PassesRepo.Storage
    const userID: string

    constructor (store: PassesRepo.Storage, userID: string)
      ensures this.store == store && this.userID == userID
    {
      this.store := store;
      this.userID := userID;
    }

    /** The id of the fixed user's draft, or "" when there is none. The answer is the
        same for every token. */
    method GetPassID(token: string, faults: set<Call>) returns (r: Result<string>)
      ensures r.Err? <==> IdQuery in faults
      ensures r.Err? ==> r.error == Db(IdQuery)
      ensures r.Ok? ==> (r.value ==
        match FindPass(store.db.passes, DraftOf(userID))
        case None => ""
        case Some(p) => p.id)
    {
      r := store.ID(userID, faults);
    }

    /** The number of buildings in the fixed user's draft. The answer is the same for
        every token. */
    method GetPassItemsCount(token: string, faults: set<Call>) returns (r: Result<int>)
      ensures r.Ok? <==> ItemsCountQuery !in faults && FindPass(store.db.passes, DraftOf(userID)).Some?
      ensures r.Ok? ==> r.value == DraftItemCount(store.db.passes, store.db.passBuildings, userID)
      ensures r.Ok? && OneDraftPerCreator(store.db.passes) ==>
        r.value == CountItems(store.db.passBuildings, ItemsOf(FindPass(store.db.passes, DraftOf(userID)).value.id))
      ensures r.Err? ==> r.error == if ItemsCountQuery in faults then Db(ItemsCountQuery) else Message("pass not found")
    {
      r := store.ItemsCount(userID, faults);
    }

    /** Adds a building to the fixed user's draft. When the draft lookup fails, for
        any reason, a new draft with an empty visitor name is created first and the
        building goes to it. No check is made that the building is already there. */
    method AddBuildingToPass(token: string, build: string, newPassID: string, recordID: string, now: Time, faults: set<Call>)
      returns (r: Outcome)
      modifies store.db
      ensures var found := DraftIdQuery !in faults && FindPass(old(store.db.passes), DraftOf(userID)).Some?;
        // the user has a draft: no pass is created and the item joins that draft
        && (found ==>
              && store.db.passes == old(store.db.passes)
              && (AddToPassExec in faults ==> r == Failure(Db(AddToPassExec)) && store.db.passBuildings == old(store.db.passBuildings))
              && (AddToPassExec !in faults ==> (r == Success &&
                    store.db.passBuildings == old(store.db.passBuildings) +
                      [NewItemRow(recordID, build, FindPass(old(store.db.passes), DraftOf(userID)).value.id)])))
        // no draft, and creating one fails: the error is returned and nothing is written
        && (!found && NewDraftPassExec in faults ==> r == Failure(Db(NewDraftPassExec)) && unchanged(store.db))
        // no draft: a new one is created and the item joins it
        && (!found && NewDraftPassExec !in faults ==>
              && store.db.passes == old(store.db.passes) + [NewDraftRow(newPassID, userID, now, "", now)]
              && (AddToPassExec in faults ==> r == Failure(Db(AddToPassExec)) && store.db.passBuildings == old(store.db.passBuildings))
              && (AddToPassExec !in faults ==> (r == Success &&
                    store.db.passBuildings == old(store.db.passBuildings) + [NewItemRow(recordID, build, newPassID)])))
      ensures store.db.buildings == old(store.db.buildings) && store.db.users == old(store.db.users)
      // a creator never gets a second draft, unless the lookup itself fails
      ensures DraftIdQuery !in faults && OneDraftPerCreator(old(store.db.passes)) ==> OneDraftPerCreator(store.db.passes)
    {
      var lookup := store.DraftPassIDByCreator(userID, faults);
      var passID: string;
      if lookup.Ok? {
        passID := lookup.value;
      } else {
        passID := newPassID;
        ghost var before := store.db.passes;
        var created := store.NewDraftPass(passID, userID, "", now, now, faults);
        if created.Failure? {
          return created;
        }
        if DraftIdQuery !in faults && OneDraftPerCreator(before) {
          NewDraftKeepsOneDraft(before, NewDraftRow(passID, userID, now, "", now));
        }
      }
      r := store.AddToPass(recordID, passID, build, faults);
    }

    /** Marks the pass deleted, whatever its status and whoever made it. */
    method Delete(token: string, id: string, now: Time, faults: set<Call>) returns (r: Outcome)
      modifies store.db
      ensures r.Failure? <==> StatusByUserExec in faults
      ensures r.Failure? ==> r.error == Db(StatusByUserExec) && unchanged(store.db)
      ensures r.Success? ==> store.db.passes == UpdatePasses(old(store.db.passes), id, SetStatusByUser(StatusDeleted, now))
      ensures r.Success? ==> forall i :: 0 <= i < |store.db.passes| && store.db.passes[i].id == id ==> store.db.passes[i].status == StatusDeleted
      ensures store.db.passBuildings == old(store.db.passBuildings)
      ensures store.db.buildings == old(store.db.buildings) && store.db.users == old(store.db.users)
      ensures OneDraftPerCreator(old(store.db.passes)) ==> OneDraftPerCreator(store.db.passes)
    {
      if OneDraftPerCreator(store.db.passes) {
        UpdateKeepsOneDraft(store.db.passes, id, SetStatusByUser(StatusDeleted, now));
      }
      r := store.EditPassStatusByUser(id, StatusDeleted, now, faults);
    }

    /** Replaces the visitor name and visit date of the pass, whatever its status. */
    method EditPass(id: string, visitor: string, dateVisit: Time, faults: set<Call>) returns (r: Outcome)
      modifies store.db
      ensures r.Failure? <==> EditPassExec in faults
      ensures r.Failure? ==> r.error == Db(EditPassExec) && unchanged(store.db)
      ensures r.Success? ==> store.db.passes == UpdatePasses(old(store.db.passes), id, SetVisitor(visitor, dateVisit))
      ensures store.db.passBuildings == old(store.db.passBuildings)
      ensures store.db.buildings == old(store.db.buildings) && store.db.users == old(store.db.users)
      ensures OneDraftPerCreator(old(store.db.passes)) ==> OneDraftPerCreator(store.db.passes)
    {
      if OneDraftPerCreator(store.db.passes) {
        UpdateKeepsOneDraft(store.db.passes, id, SetVisitor(visitor, dateVisit));
      }
      r := store.EditPass(id, visitor, dateVisit, faults);
    }

    /** Forms a draft. The lookup only sees drafts, so a pass in any other status (or
        no pass at all) fails with "pass not found"; a draft without a visitor name
        fails too; neither failure writes anything. */
    method ToForm(id: string, now: Time, faults: set<Call>) returns (r: Outcome)
      modifies store.db
      ensures var draft := FindPass(old(store.db.passes), DraftWithId(id));
        && (PassQuery in faults ==> r == Failure(Db(PassQuery)) && unchanged(store.db))
        && (PassQuery !in faults && draft.None? ==> r == Failure(Message("pass not found")) && unchanged(store.db))
        && (PassQuery !in faults && draft.Some? && PassItemsQuery in faults ==> r == Failure(Db(PassItemsQuery)) && unchanged(store.db))
        && (PassQuery !in faults && draft.Some? && PassItemsQuery !in faults && draft.value.visitor == "" ==>
              r == Failure(Message("no visitor name")) && unchanged(store.db))
        && (PassQuery !in faults && draft.Some? && PassItemsQuery !in faults && draft.value.visitor != "" ==>
              && (StatusByUserExec in faults ==> r == Failure(Db(StatusByUserExec)) && unchanged(store.db))
              && (StatusByUserExec !in faults ==> (r == Success &&
                    store.db.passes == UpdatePasses(old(store.db.passes), id, SetStatusByUser(StatusFormed, now)))))
      // forming succeeds only on a draft that has a visitor name
      ensures r.Success? ==> exists i :: 0 <= i < |old(store.db.passes)| && DraftWithId(id).Holds(old(store.db.passes)[i]) && old(store.db.passes)[i].visitor != ""
      ensures store.db.passBuildings == old(store.db.passBuildings)
      ensures store.db.buildings == old(store.db.buildings) && store.db.users == old(store.db.users)
      ensures OneDraftPerCreator(old(store.db.passes)) ==> OneDraftPerCreator(store.db.passes)
    {
      var pass := store.Pass(id, faults);
      if pass.Err? {
        return Failure(pass.error);
      }
      if pass.value.visitorName == "" {
        return Failure(Message("no visitor name"));
      }
      if OneDraftPerCreator(store.db.passes) {
        UpdateKeepsOneDraft(store.db.passes, id, SetStatusByUser(StatusFormed, now));
      }
      r := store.EditPassStatusByUser(id, StatusFormed, now, faults);
    }

    /** Rejects the pass on behalf of a moderator with an empty id, then marks its
        buildings visited. */
    method RejectPass(token: string, id: string, now: Time, faults: set<Call>) returns (r: Outcome)
      modifies store.db
      ensures StatusByModeratorExec in faults ==> r == Failure(Db(StatusByModeratorExec)) && unchanged(store.db)
      ensures StatusByModeratorExec !in faults ==> (r == Success &&
        store.db.passes == UpdatePasses(old(store.db.passes), id, SetStatusByModerator(StatusReject, now, "")))
      ensures StatusByModeratorExec !in faults ==> (store.db.passBuildings ==
        if WasVisitedExec in faults then old(store.db.passBuildings)
        else UpdateItems(old(store.db.passBuildings), ItemsOf(id), MarkVisited))
      ensures store.db.buildings == old(store.db.buildings) && store.db.users == old(store.db.users)
      ensures OneDraftPerCreator(old(store.db.passes)) ==> OneDraftPerCreator(store.db.passes)
    {
      r := Moderate(id, StatusReject, now, faults);
    }

    /** Completes the pass on behalf of a moderator with an empty id, then marks its
        buildings visited. */
    method CompletePass(token: string, id: string, now: Time, faults: set<Call>) returns (r: Outcome)
      modifies store.db
      ensures StatusByModeratorExec in faults ==> r == Failure(Db(StatusByModeratorExec)) && unchanged(store.db)
      ensures StatusByModeratorExec !in faults ==> (r == Success &&
        store.db.passes == UpdatePasses(old(store.db.passes), id, SetStatusByModerator(StatusCompleted, now, "")))
      ensures StatusByModeratorExec !in faults ==> (store.db.passBuildings ==
        if WasVisitedExec in faults then old(store.db.passBuildings)
        else UpdateItems(old(store.db.passBuildings), ItemsOf(id), MarkVisited))
      ensures store.db.buildings == old(store.db.buildings) && store.db.users == old(store.db.users)
      ensures OneDraftPerCreator(old(store.db.passes)) ==> OneDraftPerCreator(store.db.passes)
    {
      r := Moderate(id, StatusCompleted, now, faults);
    }

    /** The two ordered writes of a moderator's decision: the status write, whose
        failure is returned before anything else happens, then the visited marking,
        whose failure is ignored. */
    method Moderate(id: string, status: int, now: Time, faults: set<Call>) returns (r: Outcome)
      modifies store.db
      ensures StatusByModeratorExec in faults ==> r == Failure(Db(StatusByModeratorExec)) && unchanged(store.db)
      ensures StatusByModeratorExec !in faults ==> (r == Success &&
        store.db.passes == UpdatePasses(old(store.db.passes), id, SetStatusByModerator(status, now, "")))
      ensures StatusByModeratorExec !in faults ==> (store.db.passBuildings ==
        if WasVisitedExec in faults then old(store.db.passBuildings)
        else UpdateItems(old(store.db.passBuildings), ItemsOf(id), MarkVisited))
      ensures store.db.buildings == old(store.db.buildings) && store.db.users == old(store.db.users)
      ensures status != StatusDraft && OneDraftPerCreator(old(store.db.passes)) ==> OneDraftPerCreator(store.db.passes)
    {
      if status != StatusDraft && OneDraftPerCreator(store.db.passes) {
        UpdateKeepsOneDraft(store.db.passes, id, SetStatusByModerator(status, now, ""));
      }
      var written := store.EditPassStatusByModerator(id, status, now, "", faults);
      if written.Failure? {
        return written;
      }
      var marked := store.EditWasVisitedForPass(id, faults);
      return Success;
    }
  }
}
