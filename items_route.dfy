/** The `GET` and `POST` handlers of the items endpoint. Each handler is a
    function from what it receives (the parsed request body, the store's
    outcome) to what it answers; `Post` also reports the draft it handed to
    the store, if it reached the store at all. */
module ItemsRoute {
  import opened Wrappers
  import opened Json
  import opened Db

  const FetchFailed := "Failed to fetch items"
  const NameTypeRequired := "Name and type are required"
  const CreateFailed := "Failed to create item"

  /** The outcome of `await request.json()`. */
  datatype RequestBody = Parsed(json: Json) | Unparseable

  /** The JSON a response carries. */
  datatype ResponseBody =
    | ErrorBody(error: string)
    | ItemBody(item: Item)
    | ItemsBody(items: seq<Item>)

  datatype Response = Response(status: int, body: ResponseBody)

  /** A `POST` exchange: the draft passed to `createItem` (`None` when the
      store was never called) and the response. */
  datatype PostExchange = PostExchange(stored: Option<Draft>, response: Response)

  /** `GET`: the store's list is passed through as the body, with the
      default status 200; a rejection becomes a 500 that reveals nothing of
      the cause. */
  function Get(outcome: ListOutcome): (r: Response)
    ensures r.status == 200 <==> outcome.Listed?
    ensures r.status == 200 ==> r.body == ItemsBody(outcome.items)
    ensures r.status != 200 ==> r == Response(500, ErrorBody(FetchFailed))
  {
    match outcome
    case Listed(items) => Response(200, ItemsBody(items))
    case ListRejected => Response(500, ErrorBody(FetchFailed))
  }

  /** The draft built from a validated body: `name` and `type` as they
      came, each optional field replaced by `null` when falsy. */
  function DraftOf(body: Json): Draft
    requires Valid(body)
  {
    Draft(
      Field(body, "name").value,
      Field(body, "type").value,
      OrNull(Field(body, "description")),
      OrNull(Field(body, "cover_image")),
      OrNull(Field(body, "additional_images")))
  }

  /** The body passes the `!name || !type` gate. */
  predicate Valid(body: Json)
  {
    TruthyField(Field(body, "name")) && TruthyField(Field(body, "type"))
  }

  /** `POST`. `createItem` is the store's answer to each possible draft;
      destructuring a `null` body throws, and every exception inside the
      `try` is answered with the same 500. */
  function Post(request: RequestBody, createItem: Draft -> CreateOutcome): (x: PostExchange)
    ensures x.response.status in {201, 400, 500}
    ensures x.stored.Some? ==> x.response.status != 400
    ensures x.response.status == 201 ==>
              x.stored.Some? && x.response.body.ItemBody? && createItem(x.stored.value) == Created(x.response.body.item)
  {
    match request
    case Unparseable => PostExchange(None, Response(500, ErrorBody(CreateFailed)))
    case Parsed(body) =>
      if body == JNull then
        PostExchange(None, Response(500, ErrorBody(CreateFailed)))
      else if !Valid(body) then
        PostExchange(None, Response(400, ErrorBody(NameTypeRequired)))
      else
        var draft := DraftOf(body);
        match createItem(draft)
        case Created(item) => PostExchange(Some(draft), Response(201, ItemBody(item)))
        case CreateRejected => PostExchange(Some(draft), Response(500, ErrorBody(CreateFailed)))
  }

  /** A body whose `name` or `type` is absent, `null`, `false`, `0` or `""`
      gets the 400 answer, and the store is not called. */
  lemma PostRejectsMissingFields(body: Json, createItem: Draft -> CreateOutcome)
    requires body != JNull
    requires !TruthyField(Field(body, "name")) || !TruthyField(Field(body, "type"))
    ensures Post(Parsed(body), createItem) == PostExchange(None, Response(400, ErrorBody(NameTypeRequired)))
  {
  }

  /** The store is called exactly when the body parsed, is not `null`, and
      has a truthy `name` and `type`; answering 400 is the same as failing
      that gate on a parsed, non-null body. */
  lemma PostCallsStoreIffValid(request: RequestBody, createItem: Draft -> CreateOutcome)
    ensures Post(request, createItem).stored.Some? <==>
              request.Parsed? && request.json != JNull && Valid(request.json)
    ensures Post(request, createItem).response.status == 400 <==>
              request.Parsed? && request.json != JNull && !Valid(request.json)
  {
  }

  /** What reaches the store: `name` and `type` unchanged (no check that they
      are strings or known categories), and each optional field unchanged
      when truthy and `null` otherwise. In particular `""` becomes `null`
      but an empty array `[]` is passed on. */
  lemma PostForwardsFields(body: Json, createItem: Draft -> CreateOutcome)
    requires body != JNull && Valid(body)
    ensures var d := Post(Parsed(body), createItem).stored.value;
      && Some(d.name) == Field(body, "name")
      && Some(d.itemType) == Field(body, "type")
      && (TruthyField(Field(body, "description")) ==> Some(d.description) == Field(body, "description"))
      && (!TruthyField(Field(body, "description")) ==> d.description == JNull)
      && (TruthyField(Field(body, "cover_image")) ==> Some(d.coverImage) == Field(body, "cover_image"))
      && (!TruthyField(Field(body, "cover_image")) ==> d.coverImage == JNull)
      && (TruthyField(Field(body, "additional_images")) ==> Some(d.additionalImages) == Field(body, "additional_images"))
      && (!TruthyField(Field(body, "additional_images")) ==> d.additionalImages == JNull)
  {
  }

  /** `additional_images: []` reaches the store as `[]`: `[] || null` is
      `[]`, so the handler does not turn an empty list into `null`, while an
      empty description or cover does become `null`. */
  lemma PostKeepsEmptyImageList(body: Json, createItem: Draft -> CreateOutcome)
    requires body != JNull && Valid(body)
    ensures var d := Post(Parsed(body), createItem).stored.value;
      && (Field(body, "additional_images") == Some(JArray([])) ==> d.additionalImages == JArray([]))
      && (Field(body, "description") == Some(JString("")) ==> d.description == JNull)
      && (Field(body, "cover_image") == Some(JString("")) ==> d.coverImage == JNull)
  {
    PostForwardsFields(body, createItem);
  }

  /** A 201 carries exactly the item the store returned, and a store
      rejection is answered with the generic 500. */
  lemma PostStoreOutcome(body: Json, createItem: Draft -> CreateOutcome)
    requires body != JNull && Valid(body)
    ensures createItem(DraftOf(body)).Created? ==>
              Post(Parsed(body), createItem).response == Response(201, ItemBody(createItem(DraftOf(body)).item))
    ensures createItem(DraftOf(body)).CreateRejected? ==>
              Post(Parsed(body), createItem).response == Response(500, ErrorBody(CreateFailed))
  {
  }

  /** Every failure other than validation, whether the body did not parse,
      was `null`, or the store rejected, is the same opaque 500. */
  lemma PostFailuresAreOpaque(request: RequestBody, createItem: Draft -> CreateOutcome)
    ensures var r := Post(request, createItem).response;
      r.status == 500 ==> r.body == ErrorBody(CreateFailed)
    ensures request.Unparseable? || request == Parsed(JNull) ==>
      Post(request, createItem) == PostExchange(None, Response(500, ErrorBody(CreateFailed)))
  {
  }
}
