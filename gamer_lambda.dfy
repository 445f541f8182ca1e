/**
 * The Lambda request handler: routes an HTTP-shaped request to "create a gamer" or
 * "get a gamer", against a table of items held by an abstract store.
 */
module GamerLambda {
  import opened Wrappers
  import opened Strings
  import opened ApiErrors

  newtype int64 = x: int | -0x8000_0000_0000_0000 <= x < 0x8000_0000_0000_0000

  datatype GamerRecord = GamerRecord(
    gamerID: string,
    timeStamp: int64,
    gamerName: string,
    gamerPhoneNumber: string,
    game: string)

  datatype Request = Request(httpMethod: string, body: string, pathParameters: map<string, string>)

  datatype Response = Response(statusCode: int, body: string)

  /** The two kinds of DynamoDB attribute value the handler writes: a string and a number (as decimal text). */
  datatype AttributeValue = S(s: string) | N(n: string)

  type Item = map<string, AttributeValue>

  /**
   * What the handler cannot compute itself: `json.Unmarshal` of a request body into a
   * GamerRecord, `attributevalue.UnmarshalMap` of an item into one, and `json.Marshal`.
   */
  datatype Codec = Codec(
    unmarshalBody: string -> Option<GamerRecord>,
    unmarshalItem: Item -> Option<GamerRecord>,
    toJSON: GamerRecord -> string)

  /**
   * The per-invocation inputs from outside: the generated UUID, the clock, and whether the
   * store's PutItem and GetItem calls fail (and with what).
   */
  datatype Env = Env(newID: string, now: int64, putFault: Err, getFault: Err)

  const ItemFields: set<string> := {"gamerID", "timeStamp", "gamerName", "gamerPhoneNumber", "game"}

  /** The item CreateGamer writes for a record; the time stamp goes in as a decimal number. */
  function GamerItem(r: GamerRecord): (item: Item)
    ensures item.Keys == ItemFields
  {
    map[
      "gamerID" := S(r.gamerID),
      "timeStamp" := N(FormatInt(r.timeStamp as int)),
      "gamerName" := S(r.gamerName),
      "gamerPhoneNumber" := S(r.gamerPhoneNumber),
      "game" := S(r.game)
    ]
  }

  /** Different records are written as different items. */
  lemma GamerItemInjective(a: GamerRecord, b: GamerRecord)
    requires GamerItem(a) == GamerItem(b)
    ensures a == b
  {
    assert GamerItem(a)["timeStamp"] == GamerItem(b)["timeStamp"];
    FormatIntRoundTrip(a.timeStamp as int);
    FormatIntRoundTrip(b.timeStamp as int);
    assert GamerItem(a)["gamerID"] == GamerItem(b)["gamerID"];
    assert GamerItem(a)["gamerName"] == GamerItem(b)["gamerName"];
    assert GamerItem(a)["gamerPhoneNumber"] == GamerItem(b)["gamerPhoneNumber"];
    assert GamerItem(a)["game"] == GamerItem(b)["game"];
  }

  function StringField(item: Item, name: string): Option<string> {
    if name in item && item[name].S? then Some(item[name].s) else None
  }

  /** A decoder for the items GamerItem writes; it exists to show that GamerItem can be inverted. */
  function ReadGamerItem(item: Item): Option<GamerRecord> {
    if "timeStamp" !in item || !item["timeStamp"].N? then None
    else
      var stamp := ParseInt(item["timeStamp"].n);
      var id := StringField(item, "gamerID");
      var name := StringField(item, "gamerName");
      var phone := StringField(item, "gamerPhoneNumber");
      var game := StringField(item, "game");
      if stamp.None? || !(-0x8000_0000_0000_0000 <= stamp.value < 0x8000_0000_0000_0000) then None
      else if id.None? || name.None? || phone.None? || game.None? then None
      else Some(GamerRecord(id.value, stamp.value as int64, name.value, phone.value, game.value))
  }

  lemma ReadGamerItemInverts(r: GamerRecord)
    ensures ReadGamerItem(GamerItem(r)) == Some(r)
  {
    FormatIntRoundTrip(r.timeStamp as int);
  }

  /** The value of a path parameter; a missing key reads as the empty string, as a Go map does. */
  function PathParameter(params: map<string, string>, name: string): string {
    if name in params then params[name] else ""
  }

  /** The record CreateGamer stores: the body's fields, with the server's id and time stamp. */
  function Stamp(input: GamerRecord, id: string, now: int64): GamerRecord {
    input.(gamerID := id, timeStamp := now)
  }

  /** Whatever id and time stamp the client sent are overwritten; name, phone and game come from the body. */
  lemma StampOverridesClient(a: GamerRecord, b: GamerRecord, id: string, now: int64)
    requires a.gamerName == b.gamerName && a.gamerPhoneNumber == b.gamerPhoneNumber && a.game == b.game
    ensures Stamp(a, id, now) == Stamp(b, id, now)
    ensures Stamp(a, id, now) == GamerRecord(id, now, a.gamerName, a.gamerPhoneNumber, a.game)
  {
  }

  // ---------------------------------------------------------------------------
  // The handler as a function of the stored items
  // ---------------------------------------------------------------------------

  /** A response together with the store's items afterwards. */
  datatype Step = Step(response: Response, items: map<string, Item>)

  ghost function CreateGamerSpec(items: map<string, Item>, request: Request, env: Env, codec: Codec): Step {
    match codec.unmarshalBody(request.body)
    case None => Step(Response(400, "Invalid request body"), items)
    case Some(input) =>
      var record := Stamp(input, env.newID, env.now);
      if !env.putFault.NoErr? then Step(Response(500, "Failed to create gamer"), items)
      else Step(Response(201, codec.toJSON(record)), items[env.newID := GamerItem(record)])
  }

  ghost function GetGamerSpec(items: map<string, Item>, request: Request, env: Env, codec: Codec): Response {
    var key := PathParameter(request.pathParameters, "gamerID");
    if !env.getFault.NoErr? then Response(500, "Failed to get gamer details")
    else if key !in items then Response(404, "Gamer not found")
    else match codec.unmarshalItem(items[key])
      case None => Response(500, "Failed to unmarshal gamer details")
      case Some(record) => Response(200, codec.toJSON(record))
  }

  ghost function HandleSpec(items: map<string, Item>, request: Request, env: Env, codec: Codec): Step {
    if request.httpMethod == "POST" then CreateGamerSpec(items, request, env, codec)
    else if request.httpMethod == "GET" then Step(GetGamerSpec(items, request, env, codec), items)
    else Step(Response(400, "Invalid HTTP method"), items)
  }

  /** Any method other than POST and GET is refused with 400 and leaves the store alone. */
  lemma OtherMethodRejected(items: map<string, Item>, request: Request, env: Env, codec: Codec)
    requires request.httpMethod != "POST" && request.httpMethod != "GET"
    ensures HandleSpec(items, request, env, codec) == Step(Response(400, "Invalid HTTP method"), items)
  {
  }

  /**
   * The store changes only on a POST whose body decodes and whose write succeeds; it then
   * holds exactly one more or one overwritten item, under the generated id.
   */
  lemma OnlySuccessfulCreateWrites(items: map<string, Item>, request: Request, env: Env, codec: Codec)
    ensures var step := HandleSpec(items, request, env, codec);
      step.items == items ||
      (request.httpMethod == "POST" && codec.unmarshalBody(request.body).Some? && env.putFault.NoErr?
       && step.response.statusCode == 201
       && step.items == items[env.newID := GamerItem(Stamp(codec.unmarshalBody(request.body).value, env.newID, env.now))])
  {
  }

  /** An unparseable POST body gives 400 "Invalid request body" and writes nothing, whatever the store would do. */
  lemma BadBodyRejected(items: map<string, Item>, request: Request, env: Env, codec: Codec)
    requires request.httpMethod == "POST" && codec.unmarshalBody(request.body).None?
    ensures HandleSpec(items, request, env, codec) == Step(Response(400, "Invalid request body"), items)
  {
  }

  /**
   * A POST with a decodable body: a failed write gives 500 "Failed to create gamer"; a
   * successful one stores the item of the stamped record under the generated id and answers
   * 201 with that same record's JSON.
   */
  lemma CreateOutcome(items: map<string, Item>, request: Request, env: Env, codec: Codec)
    requires request.httpMethod == "POST" && codec.unmarshalBody(request.body).Some?
    ensures var record := GamerRecord(env.newID, env.now,
        codec.unmarshalBody(request.body).value.gamerName,
        codec.unmarshalBody(request.body).value.gamerPhoneNumber,
        codec.unmarshalBody(request.body).value.game);
      HandleSpec(items, request, env, codec) ==
        if env.putFault.NoErr? then Step(Response(201, codec.toJSON(record)), items[env.newID := GamerItem(record)])
        else Step(Response(500, "Failed to create gamer"), items)
  {
  }

  /** The status of a GET, by what the store does with the key `pathParameters["gamerID"]`. */
  lemma GetStatus(items: map<string, Item>, request: Request, env: Env, codec: Codec)
    requires request.httpMethod == "GET"
    ensures var key := PathParameter(request.pathParameters, "gamerID");
      var r := HandleSpec(items, request, env, codec).response;
      && (r.statusCode == 500 <==> (!env.getFault.NoErr? || (key in items && codec.unmarshalItem(items[key]).None?)))
      && (r.statusCode == 404 <==> (env.getFault.NoErr? && key !in items))
      && (r == Response(404, "Gamer not found") <==> r.statusCode == 404)
      && (r.statusCode == 200 <==> (env.getFault.NoErr? && key in items && codec.unmarshalItem(items[key]).Some?))
      && (r.statusCode == 200 ==> r.body == codec.toJSON(codec.unmarshalItem(items[key]).value))
  {
  }

  /** Every response carries one of the five status codes the handler uses. */
  lemma StatusCodes(items: map<string, Item>, request: Request, env: Env, codec: Codec)
    ensures HandleSpec(items, request, env, codec).response.statusCode in {200, 201, 400, 404, 500}
  {
  }

  /**
   * With the map store, a successful create followed by a get on the returned id answers 200
   * with the same record, provided the item decoder inverts GamerItem (ReadGamerItem does).
   */
  lemma CreateThenGet(items: map<string, Item>, post: Request, env: Env, get: Request, env2: Env, codec: Codec)
    requires forall r :: codec.unmarshalItem(GamerItem(r)) == Some(r)
    requires post.httpMethod == "POST" && get.httpMethod == "GET"
    requires HandleSpec(items, post, env, codec).response.statusCode == 201
    requires PathParameter(get.pathParameters, "gamerID") == env.newID && env2.getFault.NoErr?
    ensures HandleSpec(HandleSpec(items, post, env, codec).items, get, env2, codec)
         == Step(Response(200, HandleSpec(items, post, env, codec).response.body), HandleSpec(items, post, env, codec).items)
  {
    var record := Stamp(codec.unmarshalBody(post.body).value, env.newID, env.now);
    assert codec.unmarshalItem(GamerItem(record)) == Some(record);
  }

  // ---------------------------------------------------------------------------
  // The store and the handler
  // ---------------------------------------------------------------------------

  /** The DynamoDB table the handler uses, as a map from the `gamerID` attribute to the item. */
  class GamerTable {
    var items: map<string, Item>

    constructor (initial: map<string, Item>)
      ensures items == initial
    {
      items := initial;
    }

    /** PutItem: unless the call fails with `fault`, the item replaces whatever was stored under its key. */
    method PutItem(item: Item, fault: Err) returns (err: Err)
      requires "gamerID" in item && item["gamerID"].S?
      modifies this
      ensures err == fault
      ensures items == if fault.NoErr? then old(items)[item["gamerID"].s := item] else old(items)
    {
      err := fault;
      if fault.NoErr? {
        items := items[item["gamerID"].s := item];
      }
    }

    /** GetItem by the partition key: the stored item if there is one, unless the call fails with `fault`. */
    method GetItem(key: string, fault: Err) returns (found: Option<Item>, err: Err)
      ensures err == fault
      ensures found == if fault.NoErr? && key in items then Some(items[key]) else None
    {
      err := fault;
      if !fault.NoErr? {
        found := None;
      } else if key in items {
        found := Some(items[key]);
      } else {
        found := None;
      }
    }
  }

  /** The copy loop of `unmarshalAttributeValue`: a fresh map with the same keys and values. */
  method CopyAttributeMap(av: Item) returns (copy: Item)
    ensures copy == av
  {
    copy := map[];
    var keys := av.Keys;
    while keys != {}
      invariant keys <= av.Keys
      invariant copy.Keys == av.Keys - keys
      invariant forall k :: k in copy ==> copy[k] == av[k]
      decreases keys
    {
      var key :| key in keys;
      copy := copy[key := av[key]];
      keys := keys - {key};
    }
  }

  /** `unmarshalAttributeValue`: decodes a copy of the item, which decodes as the item itself. */
  method UnmarshalAttributeValue(av: Item, codec: Codec) returns (record: Option<GamerRecord>)
    ensures record == codec.unmarshalItem(av)
  {
    var marshalMap := CopyAttributeMap(av);
    record := codec.unmarshalItem(marshalMap);
  }

  method CreateGamer(table: GamerTable, request: Request, env: Env, codec: Codec) returns (response: Response, err: Err)
    modifies table
    ensures err.NoErr?
    ensures Step(response, table.items) == CreateGamerSpec(old(table.items), request, env, codec)
  {
    var gamerID := env.newID;
    var timeStamp := env.now;
    var parsed := codec.unmarshalBody(request.body);
    if parsed.None? {
      return Response(400, "Invalid request body"), NoErr;
    }
    var gamerRecord := parsed.value;
    gamerRecord := gamerRecord.(gamerID := gamerID);
    gamerRecord := gamerRecord.(timeStamp := timeStamp);
    var putErr := table.PutItem(GamerItem(gamerRecord), env.putFault);
    if !putErr.NoErr? {
      return Response(500, "Failed to create gamer"), NoErr;
    }
    return Response(201, codec.toJSON(gamerRecord)), NoErr;
  }

  method GetGamerDetails(table: GamerTable, request: Request, env: Env, codec: Codec) returns (response: Response, err: Err)
    ensures err.NoErr?
    ensures response == GetGamerSpec(table.items, request, env, codec)
  {
    var gamerID := PathParameter(request.pathParameters, "gamerID");
    var result, getErr := table.GetItem(gamerID, env.getFault);
    if !getErr.NoErr? {
      return Response(500, "Failed to get gamer details"), NoErr;
    }
    if result.None? {
      return Response(404, "Gamer not found"), NoErr;
    }
    var gamerRecord := UnmarshalAttributeValue(result.value, codec);
    if gamerRecord.None? {
      return Response(500, "Failed to unmarshal gamer details"), NoErr;
    }
    return Response(200, codec.toJSON(gamerRecord.value)), NoErr;
  }

  /** The Lambda entry point: every failure is a status code, never a Go error. */
  method HandleRequest(table: GamerTable, request: Request, env: Env, codec: Codec) returns (response: Response, err: Err)
    modifies table
    ensures err.NoErr?
    ensures Step(response, table.items) == HandleSpec(old(table.items), request, env, codec)
  {
    if request.httpMethod == "POST" {
      response, err := CreateGamer(table, request, env, codec);
    } else if request.httpMethod == "GET" {
      response, err := GetGamerDetails(table, request, env, codec);
    } else {
      response, err := Response(400, "Invalid HTTP method"), NoErr;
    }
  }

  /**
   * A create followed by a get on the generated id, through the store object: when the
   * create answers 201 the get answers 200 with the same body.
   */
  method CreateThenGetOnTable(table: GamerTable, post: Request, env: Env, get: Request, env2: Env, codec: Codec)
    returns (created: Response, fetched: Response)
    requires forall r :: codec.unmarshalItem(GamerItem(r)) == Some(r)
    requires post.httpMethod == "POST" && get.httpMethod == "GET"
    requires PathParameter(get.pathParameters, "gamerID") == env.newID && env2.getFault.NoErr?
    modifies table
    ensures created.statusCode == 201 ==> fetched == Response(200, created.body)
  {
    ghost var before := table.items;
    var err;
    created, err := HandleRequest(table, post, env, codec);
    fetched, err := HandleRequest(table, get, env2, codec);
    if created.statusCode == 201 {
      CreateThenGet(before, post, env, get, env2, codec);
    }
  }
}
