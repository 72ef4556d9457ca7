/** The object-store repository: its endpoint string, the object keys and picture
    addresses it builds, the building-name search it uses when seeding photos, and
    the two buckets the services write, as maps from object key to bytes. */
module S3Minio {
  import opened Errors
  import opened Domain
  import opened Strings

  newtype byte = x: int | 0 <= x < 256

  // ------------------------------------------------------------ endpoint

  datatype Config = Config(host: string, port: string) {
    /** The `host:port` address the client connects to. */
    function Endpoint(): (e: string)
      ensures |e| == |host| + 1 + |port|
      ensures e[..|host|] == host && e[|host|] == ':' && e[|host| + 1..] == port
    {
      host + ":" + port
    }
  }

  /** Splits an address at its first colon; an address without one is all host. */
  function SplitAtColon(s: string): (hp: (string, string))
    ensures ':' !in hp.0
    ensures ':' in s ==> s == hp.0 + ":" + hp.1
    ensures ':' !in s ==> hp == (s, "")
  {
    if s == [] then ("", "")
    else if s[0] == ':' then ("", s[1..])
    else
      var rest := SplitAtColon(s[1..]);
      assert s == [s[0]] + s[1..];
      ([s[0]] + rest.0, rest.1)
  }

  /** Splitting `h:p` at its first colon gives back `h` and `p` when `h` has no colon. */
  lemma {:induction false} SplitJoined(h: string, p: string)
    requires ':' !in h
    ensures SplitAtColon(h + ":" + p) == (h, p)
  {
    var s := h + ":" + p;
    if h == [] {
      assert s[0] == ':' && s[1..] == p;
    } else {
      assert s[0] == h[0] && h[0] != ':';
      assert s[1..] == h[1..] + ":" + p;
      SplitJoined(h[1..], p);
      assert [h[0]] + h[1..] == h;
    }
  }

  /** A host without a colon and its port are recovered from the endpoint. */
  lemma EndpointRoundTrip(c: Config)
    requires ':' !in c.host
    ensures SplitAtColon(c.Endpoint()) == (c.host, c.port)
  {
    SplitJoined(c.host, c.port);
  }

  // ------------------------------------------- object keys and picture addresses

  /** The key of the picture (or QR code) of the object with that id. */
  function ObjectKey(id: string): (key: string)
    ensures |key| == |id| + 4 && key[..|id|] == id && key[|id|..] == ".png"
  {
    id + ".png"
  }

  /** The id a picture key was made from. */
  function KeyId(key: string): string
    requires |key| >= 4
  {
    key[..|key| - 4]
  }

  /** The id is recovered from its key. */
  lemma KeyRoundTrip(id: string)
    ensures KeyId(ObjectKey(id)) == id
  {
    assert ObjectKey(id)[..|id|] == id;
  }

  /** Different ids never share a key. */
  lemma ObjectKeyInjective(a: string, b: string)
    requires ObjectKey(a) == ObjectKey(b)
    ensures a == b
  {
    KeyRoundTrip(a);
    KeyRoundTrip(b);
  }

  /** The address of an object of a bucket: `/bucket/key`. */
  function PhotoUrl(bucket: string, id: string): (url: string)
    ensures url == "/" + bucket + "/" + ObjectKey(id)
    ensures url[..1] == "/" && url[|url| - |ObjectKey(id)|..] == ObjectKey(id)
  {
    "/" + bucket + "/" + ObjectKey(id)
  }

  /** Two objects of a bucket have the same address only if they have the same id. */
  lemma PhotoUrlInjective(bucket: string, a: string, b: string)
    requires PhotoUrl(bucket, a) == PhotoUrl(bucket, b)
    ensures a == b
  {
    var ua, ub := PhotoUrl(bucket, a), PhotoUrl(bucket, b);
    assert |ObjectKey(a)| == |ObjectKey(b)|;
    assert ua[|ua| - |ObjectKey(a)|..] == ObjectKey(a);
    ObjectKeyInjective(a, b);
  }

  // --------------------------------------------------- building-name search

  /** The id of the first building, in list order, whose name contains `name`;
      "build not found" when no name does. */
  function GetBuildId(builds: seq<Building>, name: string): (r: Result<string>)
    ensures r.Err? <==> forall i :: 0 <= i < |builds| ==> !Contains(builds[i].name, name)
    ensures r.Err? ==> r.error == Message("build not found")
    ensures r.Ok? ==> exists k :: 0 <= k < |builds| && FirstNameMatch(builds, name, k) && builds[k].id == r.value
  {
    if builds == [] then Err(Message("build not found"))
    else if Contains(builds[0].name, name) then
      assert FirstNameMatch(builds, name, 0);
      Ok(builds[0].id)
    else
      var r := GetBuildId(builds[1..], name);
      assert forall i :: 1 <= i < |builds| ==> builds[i] == builds[1..][i - 1];
      if r.Ok? then
        var k :| 0 <= k < |builds| - 1 && FirstNameMatch(builds[1..], name, k) && builds[1..][k].id == r.value;
        assert FirstNameMatch(builds, name, k + 1);
        r
      else r
  }

  /** Building `k` is the first one whose name contains `name`. */
  predicate FirstNameMatch(builds: seq<Building>, name: string, k: int)
    requires 0 <= k < |builds|
  {
    Contains(builds[k].name, name) && forall j :: 0 <= j < k ==> !Contains(builds[j].name, name)
  }

  /** Every building name contains the empty string, so "" picks the first building. */
  lemma EmptyNameFindsFirst(builds: seq<Building>)
    requires |builds| > 0
    ensures GetBuildId(builds, "") == Ok(builds[0].id)
  {
    ContainsEmpty(builds[0].name);
  }

  // ---------------------------------------------------------- the buckets

  /** The picture bucket and the QR-code bucket, as maps from object key to content,
      with the bucket names the store is configured with. */
  class MinioRepository {
    const photosBucket: string
    const qrCodesBucket: string
    var photos: map<string, seq<byte>>
    var qrCodes: map<string, seq<byte>>

    constructor (photosBucket: string, qrCodesBucket: string, photos: map<string, seq<byte>>, qrCodes: map<string, seq<byte>>)
      ensures this.photosBucket == photosBucket && this.qrCodesBucket == qrCodesBucket
      ensures this.photos == photos && this.qrCodes == qrCodes
    {
      this.photosBucket := photosBucket;
      this.qrCodesBucket := qrCodesBucket;
      this.photos := photos;
      this.qrCodes := qrCodes;
    }

    /** Stores the picture of a building under `id.png`, replacing any earlier one. */
    method SaveBuildingPreview(id: string, content: seq<byte>, faults: set<Call>) returns (r: Outcome)
      modifies this
      ensures r.Failure? <==> PutPreview in faults
      ensures r.Failure? ==> r.error == Db(PutPreview) && unchanged(this)
      ensures r.Success? ==> photos == old(photos)[ObjectKey(id) := content]
      ensures qrCodes == old(qrCodes)
    {
      if PutPreview in faults {
        return Failure(Db(PutPreview));
      }
      photos := photos[ObjectKey(id) := content];
      return Success;
    }

    /** Removes the picture of a building; removing a missing picture is not an error. */
    method DeleteBuildingPreview(id: string, faults: set<Call>) returns (r: Outcome)
      modifies this
      ensures r.Failure? <==> RemovePreview in faults
      ensures r.Failure? ==> r.error == Db(RemovePreview) && unchanged(this)
      ensures r.Success? ==> photos == old(photos) - {ObjectKey(id)}
      ensures qrCodes == old(qrCodes)
    {
      if RemovePreview in faults {
        return Failure(Db(RemovePreview));
      }
      photos := photos - {ObjectKey(id)};
      return Success;
    }

    /** Stores the QR code of a pass under `id.png`. */
    method SaveQRCode(id: string, qrCode: seq<byte>, faults: set<Call>) returns (r: Outcome)
      modifies this
      ensures r.Failure? <==> PutQRCode in faults
      ensures r.Failure? ==> r.error == Db(PutQRCode) && unchanged(this)
      ensures r.Success? ==> qrCodes == old(qrCodes)[ObjectKey(id) := qrCode]
      ensures photos == old(photos)
    {
      if PutQRCode in faults {
        return Failure(Db(PutQRCode));
      }
      qrCodes := qrCodes[ObjectKey(id) := qrCode];
      return Success;
    }
  }
}
