/** The relational tables behind the repositories, as sequences of rows, and each SQL
    statement the repositories run as a function on those sequences. No key or
    foreign-key constraint is assumed: an UPDATE or DELETE acts on every row its WHERE
    clause matches, and an INSERT appends. None of the queries has an ORDER BY; this
    model fixes a multi-row result to the order of the sequence and a single-row query
    to the first matching row. */
module Tables {
  import opened Errors
  import opened Domain
  import opened Strings

  // ---------------------------------------------------------------- passes

  datatype PassRow = PassRow(
    id: string,
    creator: string,
    creationDate: Time,
    visitor: string,
    visitDate: Time,
    status: int,
    formedAt: Option<Time>,
    completedAt: Option<Time>,
    moderator: Option<string>)

  /** The row `INSERT INTO passes (id, creator, creation_date, visitor, visit_date, status)
      VALUES (..., 0)` adds; the columns it does not name stay NULL. */
  function NewDraftRow(id: string, creator: string, created: Time, visitor: string, visitDate: Time): PassRow {
    PassRow(id, creator, created, visitor, visitDate, 0, None, None, None)
  }

  /** The WHERE clauses of the statements on `passes`. */
  datatype PassWhere =
    | PassWithId(id: string)          // id = $1
    | DraftWithId(id: string)         // id = $1 AND status = 0
    | DraftOf(creator: string)        // creator = $1 AND status = 0
  {
    predicate Holds(p: PassRow) {
      match this
      case PassWithId(i) => p.id == i
      case DraftWithId(i) => p.id == i && p.status == 0
      case DraftOf(c) => p.creator == c && p.status == 0
    }
  }

  /** Index of the first row the clause matches, or the table's length when none does. */
  function FirstPass(rows: seq<PassRow>, w: PassWhere): (k: nat)
    ensures k <= |rows|
    ensures k < |rows| ==> w.Holds(rows[k])
    ensures forall j :: 0 <= j < k ==> !w.Holds(rows[j])
  {
    if rows == [] then 0
    else if w.Holds(rows[0]) then 0
    else
      var k' := FirstPass(rows[1..], w);
      assert forall j :: 1 <= j < k' + 1 ==> rows[j] == rows[1..][j - 1];
      k' + 1
  }

  /** The row a single-row query with that clause reads, if any. */
  function FindPass(rows: seq<PassRow>, w: PassWhere): (r: Option<PassRow>)
    ensures r.None? <==> forall j :: 0 <= j < |rows| ==> !w.Holds(rows[j])
    ensures r.Some? ==> r.value in rows && w.Holds(r.value)
  {
    var k := FirstPass(rows, w);
    if k < |rows| then Some(rows[k]) else None
  }

  /** The SET lists of the UPDATE statements on `passes`. */
  datatype PassUpdate =
    | SetStatus(status: int)
    | SetStatusByUser(status: int, at: Time)
    | SetStatusByModerator(status: int, at: Time, moderator: string)
    | SetVisitor(visitor: string, visitDate: Time)
  {
    function Apply(p: PassRow): PassRow {
      match this
      case SetStatus(s) => p.(status := s)
      case SetStatusByUser(s, t) => p.(status := s, formedAt := Some(t))
      case SetStatusByModerator(s, t, m) => p.(status := s, completedAt := Some(t), moderator := Some(m))
      case SetVisitor(v, d) => p.(visitor := v, visitDate := d)
    }

    /** The update leaves the status alone or writes a code other than the draft code. */
    predicate NeverDrafts() {
      SetVisitor? || status != 0
    }
  }

  /** `UPDATE passes SET ... WHERE id = $n`. */
  function UpdatePasses(rows: seq<PassRow>, id: string, u: PassUpdate): seq<PassRow> {
    seq(|rows|, i requires 0 <= i < |rows| => if rows[i].id == id then u.Apply(rows[i]) else rows[i])
  }

  /** The invariant the pass operations keep: no creator has two draft passes. */
  ghost predicate OneDraftPerCreator(rows: seq<PassRow>) {
    forall i, j :: 0 <= i < j < |rows| && rows[i].status == 0 && rows[j].status == 0 ==> rows[i].creator != rows[j].creator
  }

  /** Inserting a draft for a creator who has none keeps the invariant. */
  lemma NewDraftKeepsOneDraft(rows: seq<PassRow>, p: PassRow)
    requires OneDraftPerCreator(rows)
    requires FindPass(rows, DraftOf(p.creator)).None?
    ensures OneDraftPerCreator(rows + [p])
  {
    var rows' := rows + [p];
    forall i, j | 0 <= i < j < |rows'| && rows'[i].status == 0 && rows'[j].status == 0
      ensures rows'[i].creator != rows'[j].creator
    {
      if j == |rows| {
        assert !DraftOf(p.creator).Holds(rows[i]);
      }
    }
  }

  /** A status write that never writes the draft code keeps the invariant. */
  lemma UpdateKeepsOneDraft(rows: seq<PassRow>, id: string, u: PassUpdate)
    requires OneDraftPerCreator(rows)
    requires u.NeverDrafts()
    ensures OneDraftPerCreator(UpdatePasses(rows, id, u))
  {
    var rows' := UpdatePasses(rows, id, u);
    forall i, j | 0 <= i < j < |rows'| && rows'[i].status == 0 && rows'[j].status == 0
      ensures rows'[i].creator != rows'[j].creator
    {
      assert rows[i].status == 0 && rows[j].status == 0;
    }
  }

  /** Under the invariant the first draft of a creator is its only draft. */
  lemma OnlyDraft(rows: seq<PassRow>, creator: string, j: nat)
    requires OneDraftPerCreator(rows)
    requires j < |rows| && DraftOf(creator).Holds(rows[j])
    ensures FirstPass(rows, DraftOf(creator)) == j
  {
    var k := FirstPass(rows, DraftOf(creator));
    if k < j {
      assert false;
    }
  }

  // ----------------------------------------------------- buildings_passes

  /** A row of the association table between passes and buildings. */
  datatype PassBuildingRow = PassBuildingRow(
    id: string,
    building: string,
    pass: string,
    comment: Option<string>,
    wasVisited: bool)

  /** The row `INSERT INTO buildings_passes (id, building, pass)` adds: no comment yet
      and not visited. */
  function NewItemRow(id: string, building: string, pass: string): PassBuildingRow {
    PassBuildingRow(id, building, pass, None, false)
  }

  datatype ItemWhere =
    | ItemsOf(pass: string)                          // pass = $1
    | ItemOfPair(pass: string, building: string)     // pass = $1 AND building = $2
  {
    predicate Holds(r: PassBuildingRow) {
      match this
      case ItemsOf(p) => r.pass == p
      case ItemOfPair(p, b) => r.pass == p && r.building == b
    }
  }

  /** The number of rows the clause matches. */
  function CountItems(rows: seq<PassBuildingRow>, w: ItemWhere): nat {
    if rows == [] then 0 else (if w.Holds(rows[0]) then 1 else 0) + CountItems(rows[1..], w)
  }

  lemma {:induction false} CountItemsZero(rows: seq<PassBuildingRow>, w: ItemWhere)
    ensures CountItems(rows, w) == 0 <==> forall i :: 0 <= i < |rows| ==> !w.Holds(rows[i])
  {
    if rows != [] {
      CountItemsZero(rows[1..], w);
      assert forall i :: 1 <= i < |rows| ==> rows[i] == rows[1..][i - 1];
    }
  }

  datatype ItemUpdate = SetComment(comment: string) | MarkVisited {
    function Apply(r: PassBuildingRow): PassBuildingRow {
      match this
      case SetComment(c) => r.(comment := Some(c))
      case MarkVisited => r.(wasVisited := true)
    }
  }

  /** `UPDATE buildings_passes SET ... WHERE ...`. */
  function UpdateItems(rows: seq<PassBuildingRow>, w: ItemWhere, u: ItemUpdate): seq<PassBuildingRow> {
    seq(|rows|, i requires 0 <= i < |rows| => if w.Holds(rows[i]) then u.Apply(rows[i]) else rows[i])
  }

  /** An UPDATE that affects no row leaves the table as it was. */
  lemma UpdateNoItem(rows: seq<PassBuildingRow>, w: ItemWhere, u: ItemUpdate)
    requires CountItems(rows, w) == 0
    ensures UpdateItems(rows, w, u) == rows
  {
    CountItemsZero(rows, w);
  }

  /** `DELETE FROM buildings_passes WHERE ...`. */
  function RemoveItems(rows: seq<PassBuildingRow>, w: ItemWhere): seq<PassBuildingRow> {
    if rows == [] then []
    else (if w.Holds(rows[0]) then [] else [rows[0]]) + RemoveItems(rows[1..], w)
  }

  /** The DELETE removes exactly the matching rows and keeps every other one, as often
      as it occurred. */
  lemma {:induction false} RemoveItemsSpec(rows: seq<PassBuildingRow>, w: ItemWhere)
    ensures forall x :: x in RemoveItems(rows, w) <==> x in rows && !w.Holds(x)
    ensures |RemoveItems(rows, w)| + CountItems(rows, w) == |rows|
    ensures forall x :: multiset(RemoveItems(rows, w))[x] == if w.Holds(x) then 0 else multiset(rows)[x]
  {
    if rows != [] {
      RemoveItemsSpec(rows[1..], w);
      assert rows == [rows[0]] + rows[1..];
      assert multiset(rows) == multiset([rows[0]]) + multiset(rows[1..]);
    }
  }

  /** A DELETE that affects no row leaves the table as it was. */
  lemma {:induction false} RemoveNoItem(rows: seq<PassBuildingRow>, w: ItemWhere)
    requires CountItems(rows, w) == 0
    ensures RemoveItems(rows, w) == rows
  {
    if rows != [] {
      RemoveNoItem(rows[1..], w);
    }
  }

  /** The items count the repository reports for a creator: the association rows joined
      to each of the creator's draft rows, summed over those rows. */
  function DraftItemCount(passes: seq<PassRow>, items: seq<PassBuildingRow>, creator: string): nat {
    if passes == [] then 0
    else
      (if DraftOf(creator).Holds(passes[0]) then CountItems(items, ItemsOf(passes[0].id)) else 0)
      + DraftItemCount(passes[1..], items, creator)
  }

  lemma {:induction false} NoDraftCountsNothing(passes: seq<PassRow>, items: seq<PassBuildingRow>, creator: string)
    requires FindPass(passes, DraftOf(creator)).None?
    ensures DraftItemCount(passes, items, creator) == 0
  {
    if passes != [] {
      assert !DraftOf(creator).Holds(passes[0]);
      assert forall j :: 0 <= j < |passes[1..]| ==> passes[1..][j] == passes[j + 1];
      NoDraftCountsNothing(passes[1..], items, creator);
    }
  }

  /** When the creator has exactly one draft, the count is the number of association
      rows of that draft (0 for an empty draft). */
  lemma {:induction false} DraftItemCountOfOnlyDraft(passes: seq<PassRow>, items: seq<PassBuildingRow>, creator: string)
    requires OneDraftPerCreator(passes)
    requires FindPass(passes, DraftOf(creator)).Some?
    ensures DraftItemCount(passes, items, creator) == CountItems(items, ItemsOf(FindPass(passes, DraftOf(creator)).value.id))
  {
    var k := FirstPass(passes, DraftOf(creator));
    if k == 0 {
      var rest := passes[1..];
      forall j | 0 <= j < |rest|
        ensures !DraftOf(creator).Holds(rest[j])
      {
        assert rest[j] == passes[j + 1];
      }
      NoDraftCountsNothing(rest, items, creator);
    } else {
      var rest := passes[1..];
      assert OneDraftPerCreator(rest) by {
        forall i, j | 0 <= i < j < |rest| && rest[i].status == 0 && rest[j].status == 0
          ensures rest[i].creator != rest[j].creator
        {
          assert rest[i] == passes[i + 1] && rest[j] == passes[j + 1];
        }
      }
      assert rest[k - 1] == passes[k];
      OnlyDraft(rest, creator, k - 1);
      DraftItemCountOfOnlyDraft(rest, items, creator);
    }
  }

  // ------------------------------------------------------------- buildings

  datatype BuildingRow = BuildingRow(id: string, name: string, description: string, status: bool, imgUrl: string)

  /** The model a scanned building row yields. */
  function ModelOf(b: BuildingRow): Building {
    Building(b.id, b.name, b.description, b.imgUrl)
  }

  datatype BuildingWhere =
    | BuildingWithId(id: string)      // id = $1
    | ActiveWithId(id: string)        // id = $1 AND status = 'true'
  {
    predicate Holds(b: BuildingRow) {
      match this
      case BuildingWithId(i) => b.id == i
      case ActiveWithId(i) => b.id == i && b.status
    }
  }

  function FirstBuilding(rows: seq<BuildingRow>, w: BuildingWhere): (k: nat)
    ensures k <= |rows|
    ensures k < |rows| ==> w.Holds(rows[k])
    ensures forall j :: 0 <= j < k ==> !w.Holds(rows[j])
  {
    if rows == [] then 0
    else if w.Holds(rows[0]) then 0
    else
      var k' := FirstBuilding(rows[1..], w);
      assert forall j :: 1 <= j < k' + 1 ==> rows[j] == rows[1..][j - 1];
      k' + 1
  }

  /** The number of rows an UPDATE with that clause affects. */
  function CountBuildings(rows: seq<BuildingRow>, w: BuildingWhere): nat {
    if rows == [] then 0 else (if w.Holds(rows[0]) then 1 else 0) + CountBuildings(rows[1..], w)
  }

  lemma {:induction false} CountBuildingsZero(rows: seq<BuildingRow>, w: BuildingWhere)
    ensures CountBuildings(rows, w) == 0 <==> forall i :: 0 <= i < |rows| ==> !w.Holds(rows[i])
  {
    if rows != [] {
      CountBuildingsZero(rows[1..], w);
      assert forall i :: 1 <= i < |rows| ==> rows[i] == rows[1..][i - 1];
    }
  }

  datatype BuildingUpdate =
    | SetImgUrl(url: string)
    | SetInfo(name: string, description: string)
    | SetActive(status: bool)
  {
    function Apply(b: BuildingRow): BuildingRow {
      match this
      case SetImgUrl(u) => b.(imgUrl := u)
      case SetInfo(n, d) => b.(name := n, description := d)
      case SetActive(s) => b.(status := s)
    }
  }

  function UpdateBuildings(rows: seq<BuildingRow>, w: BuildingWhere, u: BuildingUpdate): seq<BuildingRow> {
    seq(|rows|, i requires 0 <= i < |rows| => if w.Holds(rows[i]) then u.Apply(rows[i]) else rows[i])
  }

  /** An UPDATE that affects no row leaves the table as it was. */
  lemma UpdateNothing(rows: seq<BuildingRow>, w: BuildingWhere, u: BuildingUpdate)
    requires CountBuildings(rows, w) == 0
    ensures UpdateBuildings(rows, w, u) == rows
  {
    CountBuildingsZero(rows, w);
  }

  /** The row `INSERT INTO buildings (id, name, description, status, img_url)` adds. */
  function NewBuildingRow(b: Building): BuildingRow {
    BuildingRow(b.id, b.name, b.description, true, "/")
  }

  /** The WHERE clauses of the catalogue queries. `LIKE '%p%'` is read as a plain
      substring test. */
  datatype BuildingFilter = AllActive | ActiveNameLike(pattern: string) {
    predicate Selects(b: BuildingRow) {
      match this
      case AllActive => b.status
      case ActiveNameLike(p) => b.status && Contains(b.name, p)
    }
  }

  /** The rows a catalogue query returns, in scan order. */
  function SelectBuildings(rows: seq<BuildingRow>, f: BuildingFilter): seq<BuildingRow> {
    if rows == [] then []
    else (if f.Selects(rows[0]) then [rows[0]] else []) + SelectBuildings(rows[1..], f)
  }

  /** A query returns exactly the rows its filter selects. */
  lemma {:induction false} SelectBuildingsSpec(rows: seq<BuildingRow>, f: BuildingFilter)
    ensures forall b :: b in SelectBuildings(rows, f) <==> b in rows && f.Selects(b)
  {
    if rows != [] {
      SelectBuildingsSpec(rows[1..], f);
      assert rows == [rows[0]] + rows[1..];
    }
  }

  /** A name pattern of "" matches every active building. */
  lemma {:induction false} EmptyPatternSelectsAllActive(rows: seq<BuildingRow>)
    ensures SelectBuildings(rows, ActiveNameLike("")) == SelectBuildings(rows, AllActive)
  {
    if rows != [] {
      ContainsEmpty(rows[0].name);
      EmptyPatternSelectsAllActive(rows[1..]);
    }
  }

  // ------------------------------------------- the join behind a pass lookup

  /** One result row of `SELECT b.id, b.name, b.description, b.img_url, bs.comment
      FROM buildings_passes bs JOIN buildings b ON bs.building = b.id WHERE pass = $1`. */
  datatype JoinedRow = JoinedRow(building: BuildingRow, comment: Option<string>)

  /** The building rows one association row joins with. */
  function JoinLink(buildings: seq<BuildingRow>, link: PassBuildingRow): seq<JoinedRow> {
    if buildings == [] then []
    else
      (if buildings[0].id == link.building then [JoinedRow(buildings[0], link.comment)] else [])
      + JoinLink(buildings[1..], link)
  }

  function JoinRows(links: seq<PassBuildingRow>, buildings: seq<BuildingRow>, pass: string): seq<JoinedRow> {
    if links == [] then []
    else (if links[0].pass == pass then JoinLink(buildings, links[0]) else []) + JoinRows(links[1..], buildings, pass)
  }

  lemma {:induction false} JoinLinkCount(buildings: seq<BuildingRow>, link: PassBuildingRow)
    ensures |JoinLink(buildings, link)| == CountBuildings(buildings, BuildingWithId(link.building))
  {
    if buildings != [] {
      JoinLinkCount(buildings[1..], link);
    }
  }

  /** When every association row of the pass names exactly one building row, the join
      yields one row per association row. */
  lemma {:induction false} JoinRowsCount(links: seq<PassBuildingRow>, buildings: seq<BuildingRow>, pass: string)
    requires forall i :: 0 <= i < |links| && links[i].pass == pass ==> CountBuildings(buildings, BuildingWithId(links[i].building)) == 1
    ensures |JoinRows(links, buildings, pass)| == CountItems(links, ItemsOf(pass))
  {
    if links != [] {
      assert forall i :: 1 <= i < |links| ==> links[i] == links[1..][i - 1];
      JoinRowsCount(links[1..], buildings, pass);
      if links[0].pass == pass {
        JoinLinkCount(buildings, links[0]);
      }
    }
  }

  /** Every joined row comes from an association row of the pass and the building row
      that association names, and carries that association's comment. */
  lemma {:induction false} JoinRowsSource(links: seq<PassBuildingRow>, buildings: seq<BuildingRow>, pass: string)
    ensures forall j :: j in JoinRows(links, buildings, pass) ==>
      j.building in buildings &&
      exists l :: l in links && l.pass == pass && l.building == j.building.id && l.comment == j.comment
  {
    if links != [] {
      JoinRowsSource(links[1..], buildings, pass);
      JoinLinkSource(buildings, links[0]);
    }
  }

  lemma {:induction false} JoinLinkSource(buildings: seq<BuildingRow>, link: PassBuildingRow)
    ensures forall j :: j in JoinLink(buildings, link) ==>
      j.building in buildings && j.building.id == link.building && j.comment == link.comment
  {
    if buildings != [] {
      JoinLinkSource(buildings[1..], link);
    }
  }

  /** The text a nullable comment column scans into: NULL reads as "". */
  function CommentText(c: Option<string>): string {
    match c
    case Some(s) => s
    case None => ""
  }

  /** The item a joined row scans into. */
  function ScanItem(j: JoinedRow): PassItem {
    PassItem(ModelOf(j.building), CommentText(j.comment))
  }

  // ----------------------------------------------------------------- users

  datatype UserRow = UserRow(id: string, login: string, passHash: string, isAdmin: bool)

  function FirstUser(rows: seq<UserRow>, login: string): (k: nat)
    ensures k <= |rows|
    ensures k < |rows| ==> rows[k].login == login
    ensures forall j :: 0 <= j < k ==> rows[j].login != login
  {
    if rows == [] then 0
    else if rows[0].login == login then 0
    else
      var k' := FirstUser(rows[1..], login);
      assert forall j :: 1 <= j < k' + 1 ==> rows[j] == rows[1..][j - 1];
      k' + 1
  }

  /** The user store's update of a user's login and password hash. */
  function UpdateUsers(rows: seq<UserRow>, uid: string, login: string, passHash: string): seq<UserRow> {
    seq(|rows|, i requires 0 <= i < |rows| => if rows[i].id == uid then rows[i].(login := login, passHash := passHash) else rows[i])
  }

  // -------------------------------------------------------------- database

  /** The database the repositories share. */
  class Database {
    var passes: seq<PassRow>
    var passBuildings: seq<PassBuildingRow>
    var buildings: seq<BuildingRow>
    var users: seq<UserRow>

    constructor (passes: seq<PassRow>, passBuildings: seq<PassBuildingRow>, buildings: seq<BuildingRow>, users: seq<UserRow>)
      ensures this.passes == passes && this.passBuildings == passBuildings
      ensures this.buildings == buildings && this.users == users
    {
      this.passes := passes;
      this.passBuildings := passBuildings;
      this.buildings := buildings;
      this.users := users;
    }
  }
}
