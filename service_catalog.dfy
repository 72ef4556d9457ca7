/** The legacy in-memory service catalogue: five seeded services and a lookup by id. */
module ServiceCatalog {
  import opened Errors

  newtype int64 = x: int | -0x8000_0000_0000_0000 <= x < 0x8000_0000_0000_0000

  datatype ServiceModel = ServiceModel(id: int64, name: string, description: string, imgUrl: string, price: int)

  /** Index `k` of the catalogue holds the service with id `k`. */
  predicate IdsAreIndices(s: seq<ServiceModel>) {
    forall k :: 0 <= k < |s| ==> s[k].id as int == k
  }

  /** The index of the first service with that id, or |s| when there is none. */
  function FirstService(s: seq<ServiceModel>, id: int64): (k: nat)
    ensures k <= |s|
    ensures k < |s| ==> s[k].id == id
    ensures forall j :: 0 <= j < k ==> s[j].id != id
  {
    if s == [] then 0
    else if s[0].id == id then 0
    else
      var k' := FirstService(s[1..], id);
      assert forall j :: 1 <= j < k' + 1 ==> s[j] == s[1..][j - 1];
      k' + 1
  }

  /** On a catalogue whose ids are its indices, the lookup finds exactly the ids
      0 .. |s|-1, each at its own index. */
  lemma {:induction false} LookupOnIndexedCatalogue(s: seq<ServiceModel>, id: int64)
    requires IdsAreIndices(s)
    ensures FirstService(s, id) < |s| <==> 0 <= id as int < |s|
    ensures 0 <= id as int < |s| ==> FirstService(s, id) == id as int
  {
    var k := FirstService(s, id);
    if k < |s| {
      assert s[k].id as int == k;
    }
    if 0 <= id as int < |s| {
      assert s[id as int].id == id;
    }
  }

  class Repository {
    var storage: seq<ServiceModel>

    /** The seeded catalogue: five services, service `k` at index `k`. */
    constructor New()
      ensures |storage| == 5 && IdsAreIndices(storage)
      ensures storage[0].price == 150 && storage[1].price == 180 && storage[2].price == 90
      ensures storage[3].price == 60 && storage[4].price == 95
    {
      var services := new ServiceModel[5](_ => ServiceModel(0, "", "", "", 0));
      services[0] := ServiceModel(
        0,
        "Главный корпус (ГУК)",
        "Оформление пропуска в главный учебный корпус по адресу 2-я Бауманская улица, 5",
        "/services/0.png",
        150);
      services[1] := ServiceModel(
        1,
        "Учебно-лабораторный корпус",
        "Оформление пропуска в учебно-лабораторный корпус по адресу 2-я Бауманская улица, 5",
        "/services/1.png",
        180);
      services[2] := ServiceModel(
        2,
        "Корпус Э",
        "Оформление пропуска в корпус \"энерго\" по адресу 2-я Бауманская улица, 5",
        "/services/2.png",
        90);
      services[3] := ServiceModel(
        3,
        "Корпус СМ",
        "Оформление пропуска в корпус \"специальное машиностроение\" по адресу 2-я Бауманская улица, 5",
        "/services/3.png",
        60);
      services[4] := ServiceModel(
        4,
        "Корпус Т",
        "Оформление пропуска в корпус \"т\" по адресу 2-я Бауманская улица, 5",
        "/services/4.png",
        95);
      storage := services[..];
    }

    /** The stored services, as they are. */
    function Services(): (s: seq<ServiceModel>)
      reads this
      ensures s == storage
    {
      storage
    }

    /** The first stored service with that id; "service not found" when there is none. */
    method Service(id: int64) returns (r: Result<ServiceModel>)
      ensures r.Ok? <==> exists i :: 0 <= i < |storage| && storage[i].id == id
      ensures r.Ok? ==> r.value == storage[FirstService(storage, id)]
      ensures r.Err? ==> r.error == Message("service not found")
    {
      var i := 0;
      while i < |storage|
        invariant 0 <= i <= |storage|
        invariant forall j :: 0 <= j < i ==> storage[j].id != id
      {
        if storage[i].id == id {
          return Ok(storage[i]);
        }
        i := i + 1;
      }
      return Err(Message("service not found"));
    }
  }

  /** A lookup on a freshly seeded catalogue succeeds exactly for the ids 0 to 4, and
      then answers the service seeded under that id. */
  method LookupOnSeed(id: int64) returns (r: Result<ServiceModel>)
    ensures r.Ok? <==> 0 <= id <= 4
    ensures r.Ok? ==> r.value.id == id
    ensures r.Err? ==> r.error == Message("service not found")
  {
    var repo := new Repository.New();
    r := repo.Service(id);
    LookupOnIndexedCatalogue(repo.storage, id);
  }
}
