/**
 * The route handlers for `/api/categories` (src/app/api/categories/route.ts)
 * over an in-memory stand-in for the `categories` collection.
 */
module CategoriesRoute {
  import opened Wrappers
  import opened Text

  /** A parsed JSON value. */
  datatype Json =
    | JNull
    | JBool(b: bool)
    | JNumber(n: real)
    | JString(s: string)
    | JArray(items: seq<Json>)
    | JObject(fields: map<string, Json>)

  /** JavaScript truthiness; `None` is `undefined`, what reading a missing
      field gives. */
  predicate Truthy(v: Option<Json>) {
    match v
    case None => false
    case Some(JNull) => false
    case Some(JBool(b)) => b
    case Some(JNumber(n)) => n != 0.0
    case Some(JString(s)) => s != []
    case Some(JArray(_)) => true
    case Some(JObject(_)) => true
  }

  /** `body[key]` for a body that is not `null`: only an object has the
      fields `name` and `words`. */
  function Field(body: Json, key: string): Option<Json> {
    if body.JObject? && key in body.fields then Some(body.fields[key]) else None
  }

  /** The rejection test of POST:
      `!name || !words || !Array.isArray(words) || words.length === 0`. */
  predicate Rejects(name: Option<Json>, words: Option<Json>) {
    !Truthy(name) || !Truthy(words) || !(words.Some? && words.value.JArray?) ||
    |words.value.items| == 0
  }

  /** What POST makes of its request body. */
  datatype Validation =
    | Unreadable                                // `request.json()` or the destructuring throws
    | Incomplete                                // the 400 case
    | Accepted(name: Json, words: seq<Json>)

  /** `None` is a body that is not JSON. A `null` body parses, but
      destructuring it throws, so it ends up in the catch like a parse
      error. */
  function Validate(body: Option<Json>): (r: Validation)
    ensures r.Unreadable? <==> body.None? || body == Some(JNull)
    ensures r.Incomplete? <==> (body.Some? && body.value != JNull &&
      Rejects(Field(body.value, "name"), Field(body.value, "words")))
    ensures r.Accepted? ==>
      Field(body.value, "name") == Some(r.name) && Truthy(Some(r.name)) &&
      Field(body.value, "words") == Some(JArray(r.words)) && |r.words| > 0
  {
    match body
    case None => Unreadable
    case Some(JNull) => Unreadable
    case Some(b) =>
      var name := Field(b, "name");
      var words := Field(b, "words");
      if Rejects(name, words) then Incomplete else Accepted(name.value, words.value.items)
  }

  /** For the usual body `{name: "...", words: [...]}`, the request is
      accepted exactly when the name is not the empty string and the list
      is not empty — whatever the name or the elements contain. */
  lemma ValidateStringBody(name: string, words: seq<Json>)
    ensures var body := JObject(map["name" := JString(name), "words" := JArray(words)]);
      Validate(Some(body)).Accepted? <==> name != [] && |words| > 0
  {
    var body := JObject(map["name" := JString(name), "words" := JArray(words)]);
    assert Field(body, "name") == Some(JString(name));
    assert Field(body, "words") == Some(JArray(words));
  }

  /** There is no trimming on the server: a name of one space and a single
      empty word pass. */
  lemma BlankNameAccepted()
    ensures Validate(Some(JObject(map["name" := JString(" "), "words" := JArray([JString("")])]))).Accepted?
  {
    ValidateStringBody(" ", [JString("")]);
  }

  /** A body without a `words` array, or with an empty one, is refused. */
  lemma MissingWordsRejected(body: Json)
    requires body != JNull
    requires Field(body, "words").None? || !Field(body, "words").value.JArray? ||
             Field(body, "words").value.items == []
    ensures Validate(Some(body)) == Incomplete
  {
  }

  /** A record of the collection; `oid` stands for the ObjectId and
      `createdAt` for the `Date` the insert stamps. */
  datatype StoredCategory = StoredCategory(oid: nat, name: Json, words: seq<Json>, createdAt: int)

  /** A record as GET sends it: every field as stored, `_id` as a string. */
  datatype CategoryOut = CategoryOut(id: string, name: Json, words: seq<Json>, createdAt: int)

  datatype Payload =
    | ErrorBody(error: string)
    | CreatedBody(id: string, name: Json, words: seq<Json>, message: string)
    | CategoryArray(items: seq<CategoryOut>)

  datatype Reply = Reply(status: nat, payload: Payload)

  /** `_id.toString()`: the identifier rendered as a string. */
  function IdString(oid: nat): string {
    Decimal(oid)
  }

  /** Distinct identifiers stay distinct as strings. */
  lemma IdStringInjective(a: nat, b: nat)
    ensures IdString(a) == IdString(b) <==> a == b
  {
    if a != b {
      DecimalInjective(a, b);
    }
  }

  /** GET's `map`: every record in order, `_id` stringified, the rest as
      stored. */
  function Formatted(records: seq<StoredCategory>): (r: seq<CategoryOut>)
    ensures |r| == |records|
    ensures forall i :: 0 <= i < |records| ==>
      r[i].id == IdString(records[i].oid) && r[i].name == records[i].name &&
      r[i].words == records[i].words && r[i].createdAt == records[i].createdAt
  {
    if records == [] then []
    else
      var c := records[0];
      [CategoryOut(IdString(c.oid), c.name, c.words, c.createdAt)] + Formatted(records[1..])
  }

  /** Records with distinct identifiers are sent with distinct string ids. */
  lemma FormattedIdsDistinct(records: seq<StoredCategory>)
    requires forall i, j :: 0 <= i < j < |records| ==> records[i].oid != records[j].oid
    ensures var r := Formatted(records);
      forall i, j :: 0 <= i < j < |r| ==> r[i].id != r[j].id
  {
    var r := Formatted(records);
    forall i, j | 0 <= i < j < |r| ensures r[i].id != r[j].id {
      IdStringInjective(records[i].oid, records[j].oid);
    }
  }

  /** The `categories` collection; it hands out a new identifier for every
      insert. */
  class Collection {
    var records: seq<StoredCategory>
    var nextOid: nat

    /** Identifiers increase along the collection and are below the next
        one to be issued. */
    predicate Valid()
      reads this
    {
      (forall i :: 0 <= i < |records| ==> records[i].oid < nextOid) &&
      (forall i, j :: 0 <= i < j < |records| ==> records[i].oid < records[j].oid)
    }

    constructor ()
      ensures records == [] && Valid()
    {
      records, nextOid := [], 0;
    }

    /** `insertOne`: appends the record with an identifier never issued
        before, and returns that identifier. */
    method InsertOne(name: Json, words: seq<Json>, createdAt: int) returns (oid: nat)
      requires Valid()
      modifies this
      ensures Valid()
      ensures records == old(records) + [StoredCategory(oid, name, words, createdAt)]
      ensures old(nextOid) <= oid < nextOid
      ensures forall i :: 0 <= i < |old(records)| ==> IdString(old(records)[i].oid) != IdString(oid)
    {
      oid := nextOid;
      forall i | 0 <= i < |records| ensures IdString(records[i].oid) != IdString(oid) {
        IdStringInjective(records[i].oid, oid);
      }
      records := records + [StoredCategory(oid, name, words, createdAt)];
      nextOid := nextOid + 1;
    }
  }

  /** `GET`: `reachable` is false when the database cannot be reached or
      the query fails. */
  method Get(db: Collection, reachable: bool) returns (reply: Reply)
    requires db.Valid()
    ensures reachable ==> reply == Reply(200, CategoryArray(Formatted(db.records)))
    ensures reachable ==> forall i, j :: 0 <= i < j < |reply.payload.items| ==>
      reply.payload.items[i].id != reply.payload.items[j].id
    ensures !reachable ==> reply == Reply(500, ErrorBody("Failed to fetch categories"))
  {
    if !reachable {
      return Reply(500, ErrorBody("Failed to fetch categories"));
    }
    FormattedIdsDistinct(db.records);
    reply := Reply(200, CategoryArray(Formatted(db.records)));
  }

  /** `POST`: `reachable` is false when the database cannot be reached or
      the insert fails; `now` is the clock. The body is checked before
      anything is written, so only a 200 reply comes with a new record. */
  method Post(db: Collection, body: Option<Json>, reachable: bool, now: int) returns (reply: Reply)
    requires db.Valid()
    modifies db
    ensures db.Valid()
    ensures reply.status == 400 <==> Validate(body).Incomplete?
    ensures reply.status == 400 ==> reply.payload == ErrorBody("Name and words array are required")
    ensures reply.status == 500 <==> Validate(body).Unreadable? || (Validate(body).Accepted? && !reachable)
    ensures reply.status == 500 ==> reply.payload == ErrorBody("Failed to create category")
    ensures reply.status == 200 <==> Validate(body).Accepted? && reachable
    ensures reply.status != 200 ==> db.records == old(db.records)
    ensures reply.status == 200 ==> |db.records| == |old(db.records)| + 1
    ensures reply.status == 200 ==>
      var v := Validate(body);
      var oid := db.records[|db.records| - 1].oid;
      db.records == old(db.records) + [StoredCategory(oid, v.name, v.words, now)] &&
      reply.payload == CreatedBody(IdString(oid), v.name, v.words, "Category created successfully") &&
      (forall i :: 0 <= i < |old(db.records)| ==> IdString(old(db.records)[i].oid) != IdString(oid))
  {
    var v := Validate(body);
    if v.Unreadable? {
      return Reply(500, ErrorBody("Failed to create category"));
    }
    if v.Incomplete? {
      return Reply(400, ErrorBody("Name and words array are required"));
    }
    if !reachable {
      return Reply(500, ErrorBody("Failed to create category"));
    }
    var oid := db.InsertOne(v.name, v.words, now);
    reply := Reply(200, CreatedBody(IdString(oid), v.name, v.words, "Category created successfully"));
  }

  /** A valid POST followed by a GET lists the new category; an empty word
      list is refused without a write. */
  method CreateThenList(now: int)
  {
    var db := new Collection();
    var movies := JObject(map["name" := JString("Movies"), "words" := JArray([JString("Jaws"), JString("Up")])]);
    ValidateStringBody("Movies", [JString("Jaws"), JString("Up")]);
    var created := Post(db, Some(movies), true, now);
    assert created.status == 200;
    var empty := JObject(map["name" := JString("Empty"), "words" := JArray([])]);
    ValidateStringBody("Empty", []);
    var refused := Post(db, Some(empty), true, now);
    assert refused.status == 400 && |db.records| == 1;
    var listed := Get(db, true);
    assert |listed.payload.items| == 1 && listed.payload.items[0].name == JString("Movies");
    assert listed.payload.items[0].id == created.payload.id;
  }
}
