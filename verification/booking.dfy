/** The decisions of the `/v1/ontiloo/appointments/create` handler in src/server.js:
    which request is rejected and why, when a customer is created, how each booking item
    is defaulted, which payload goes to the booking call and which appointment id is
    reported back. The two calls to the booking service are parameters: their response
    body, or None when the call threw. */
module Booking {
  import opened Text
  import opened Wrappers
  import opened JsValue
  import opened Validators

  // ---------------------------------------------------------------------------
  // Configuration
  // ---------------------------------------------------------------------------

  /** The defaults the handler reads from its environment, already converted to numbers. */
  datatype Config = Config(
    defaultGroup: int,
    defaultServiceIds: seq<int>,
    defaultStaffId: int,
    defaultSourceType: string)

  /** The values used when no environment variable is set. */
  const DefaultConfig := Config(1656, [6137], 1643, "AI")

  /** The default service list comes from splitting a string on ",", which never gives an
      empty list. */
  predicate ValidConfig(cfg: Config) {
    |cfg.defaultServiceIds| >= 1
  }

  /** `DEFAULT_REQUEST_STAFF`: both arms of its conditional are `true`. */
  const DefaultRequestStaff := true

  /** The default service ids as the values placed in an item. */
  function DefaultServiceIds(cfg: Config): (r: seq<Json>)
    ensures |r| == |cfg.defaultServiceIds|
    ensures forall i :: 0 <= i < |r| ==> r[i] == Num(cfg.defaultServiceIds[i])
  {
    seq(|cfg.defaultServiceIds|, i requires 0 <= i < |cfg.defaultServiceIds| => Num(cfg.defaultServiceIds[i]))
  }

  // ---------------------------------------------------------------------------
  // Outcomes
  // ---------------------------------------------------------------------------

  /** An exception that ends the handler's main block. */
  datatype Failure =
    | TypeError       // a property read on null or undefined, or `.trim` of a non-string
    | DatetimeFormat  // `INVALID_DATETIME_FORMAT` from toOntilooDateTime
    | Upstream        // a call to the booking service threw

  /** What the client is answered from the handler's main block. */
  datatype Reply =
    | Respond(status: nat, code: string)  // `{ ok: false, code, message }`
    | CreateFailed(raw: Json)              // 502 `CUSTOMER_CREATE_FAILED`, with the service's answer
    | Booked(appointmentId: Json, raw: Json)
    | Throws(failure: Failure)             // handed to the catch block

  /** The body the handler reads: `req.body || {}`. */
  function BodyOf(request: Json): (b: Json)
    ensures Falsy(request) ==> b == Obj(map[])
    ensures !Falsy(request) ==> b == request
  {
    if Falsy(request) then Obj(map[]) else request
  }

  /** `Array.isArray(items) && items.length !== 0`. */
  predicate HasItems(body: Json) {
    var items := Prop(body, "items");
    items.Arr? && |items.items| > 0
  }

  // ---------------------------------------------------------------------------
  // Customer
  // ---------------------------------------------------------------------------

  /** `body.customerId ?? body.customer?.id`. */
  function GivenCustomerId(body: Json): Json {
    Coalesce(Prop(body, "customerId"), Prop(Prop(body, "customer"), "id"))
  }

  /** `v?.trim()`: undefined for a nullish value, the trimmed text of a string, and a
      TypeError for anything else, which has no `trim` method. */
  function OptionalTrim(v: Json): (r: Result<Json, Failure>)
    ensures Nullish(v) ==> r == Ok(Undefined)
    ensures v.Str? ==> r.Ok? && r.value.Str? && r.value.s == Trim(v.s)
    ensures r.Err? <==> !Nullish(v) && !v.Str?
  {
    if Nullish(v) then Ok(Undefined)
    else if v.Str? then Ok(Str(Trim(v.s)))
    else Err(TypeError)
  }

  /** The argument of `addCustomer`. */
  datatype CustomerRequest = CustomerRequest(name: Json, phone: string, email: Json, dob: Json)

  /** The customer fields read from `body.customer`: the phone normalised to its digits,
      name, email and birth date trimmed when present. */
  function CustomerInfo(body: Json): (r: Result<CustomerRequest, Failure>)
    ensures r.Ok? ==> AllDigits(r.value.phone)
    ensures r.Ok? ==> r.value.phone == NormalizePhone(Prop(Prop(body, "customer"), "phone"))
    ensures r.Ok? ==> Ok(r.value.name) == OptionalTrim(Prop(Prop(body, "customer"), "name"))
    ensures r.Ok? ==> Ok(r.value.email) == OptionalTrim(Prop(Prop(body, "customer"), "email"))
    ensures r.Ok? ==> Ok(r.value.dob) == OptionalTrim(Prop(Prop(body, "customer"), "dob"))
    ensures r.Err? <==> exists key :: key in ["name", "email", "dob"] && OptionalTrim(Prop(Prop(body, "customer"), key)).Err?
  {
    var c := Prop(body, "customer");
    var phone := NormalizePhone(Prop(c, "phone"));
    var name := OptionalTrim(Prop(c, "name"));
    var email := OptionalTrim(Prop(c, "email"));
    var dob := OptionalTrim(Prop(c, "dob"));
    if name.Err? then Err(name.error)
    else if email.Err? then Err(email.error)
    else if dob.Err? then Err(dob.error)
    else Ok(CustomerRequest(name.value, phone, email.value, dob.value))
  }

  /** `phone || email || name`: at least one way to reach the customer. */
  predicate HasContact(c: CustomerRequest) {
    c.phone != "" || !Falsy(c.email) || !Falsy(c.name)
  }

  /** The id of a created customer: `created?.id ?? created?.data?.id ??
      created?.customerId ?? created?.data?.customerId`. */
  function CreatedCustomerId(created: Json): Json {
    CoalesceAll([Prop(created, "id"), Prop(Prop(created, "data"), "id"),
                 Prop(created, "customerId"), Prop(Prop(created, "data"), "customerId")])
  }

  /** An answer whose top-level `id` is set is read by it, even when it also carries a
      `data` object; an answer with no id field at all gives no customer id. */
  lemma CreatedCustomerIdOrder(created: Json)
    ensures !Nullish(Prop(created, "id")) ==> CreatedCustomerId(created) == Prop(created, "id")
    ensures Nullish(Prop(created, "id")) && !Nullish(Prop(Prop(created, "data"), "id")) ==>
      CreatedCustomerId(created) == Prop(Prop(created, "data"), "id")
    ensures Nullish(CreatedCustomerId(created)) <==>
      && Nullish(Prop(created, "id")) && Nullish(Prop(Prop(created, "data"), "id"))
      && Nullish(Prop(created, "customerId")) && Nullish(Prop(Prop(created, "data"), "customerId"))
  {
    var vs := [Prop(created, "id"), Prop(Prop(created, "data"), "id"),
               Prop(created, "customerId"), Prop(Prop(created, "data"), "customerId")];
    assert CreatedCustomerId(created) == CoalesceAll(vs);
    if !Nullish(vs[0]) {
      CoalesceAllSkips(vs, 0);
    } else if !Nullish(vs[1]) {
      CoalesceAllSkips(vs, 1);
    } else if !Nullish(vs[2]) {
      assert !Nullish(CoalesceAll(vs));
    } else if !Nullish(vs[3]) {
      assert !Nullish(CoalesceAll(vs));
    }
  }

  // ---------------------------------------------------------------------------
  // Items
  // ---------------------------------------------------------------------------

  /** One element of the booking payload's `items`. */
  datatype BookingItem = BookingItem(
    startTime: string,
    endTime: string,
    requestStaff: bool,
    serviceIds: seq<Json>,
    staffId: Option<Json>)  // the `staffId` key, set only when staff is requested

  /** The error codes the item callback answers with. */
  datatype ItemError = MissingServiceIds | MissingStaffId

  function ItemErrorCode(e: ItemError): string {
    match e
    case MissingServiceIds => "MISSING_SERVICE_IDS"
    case MissingStaffId => "MISSING_STAFF_ID"
  }

  /** What the callback of `items.map` returns for one item: the mapped item, or the
      response object after answering 400 — that response takes the item's place and the
      handler goes on. */
  datatype ItemOutcome = Mapped(item: BookingItem) | Rejected(error: ItemError)

  /** `typeof it.requestStaff === "boolean" ? it.requestStaff : DEFAULT_REQUEST_STAFF`. */
  function RequestStaffOf(it: Json): (r: bool)
    ensures Prop(it, "requestStaff") == Bool(false) <==> !r
  {
    var v := Prop(it, "requestStaff");
    if v.Bool? then v.b else DefaultRequestStaff
  }

  /** The item's own non-empty `serviceIds` array, otherwise the default list. */
  function ServiceIdsOf(it: Json, cfg: Config): (r: seq<Json>)
    ensures var v := Prop(it, "serviceIds");
      if v.Arr? && |v.items| > 0 then r == v.items else r == DefaultServiceIds(cfg)
  {
    var v := Prop(it, "serviceIds");
    if v.Arr? && |v.items| > 0 then v.items else DefaultServiceIds(cfg)
  }

  /** `it.staffId ?? DEFAULT_STAFF_ID`. */
  function StaffIdOf(it: Json, cfg: Config): Json {
    Coalesce(Prop(it, "staffId"), Num(cfg.defaultStaffId))
  }

  /** The callback of `items.map` for one item. */
  function MapItem(it: Json, cfg: Config): (r: Result<ItemOutcome, Failure>)
    ensures Nullish(it) ==> r == Err(TypeError)
    ensures !Nullish(it) ==>
      (r == Err(DatetimeFormat) <==>
        ToOntilooDateTime(Prop(it, "startTime")).Err? || ToOntilooDateTime(Prop(it, "endTime")).Err?)
    ensures r.Ok? && r.value.Mapped? ==>
      && r.value.item.startTime == ToOntilooDateTime(Prop(it, "startTime")).value
      && r.value.item.endTime == ToOntilooDateTime(Prop(it, "endTime")).value
      && r.value.item.requestStaff == RequestStaffOf(it)
      && r.value.item.serviceIds == ServiceIdsOf(it, cfg)
      && (r.value.item.staffId.Some? <==> r.value.item.requestStaff)
      && (r.value.item.staffId.Some? ==> r.value.item.staffId.value == StaffIdOf(it, cfg))
      && (r.value.item.staffId.Some? ==> !Falsy(r.value.item.staffId.value))
    ensures r == Ok(Rejected(MissingStaffId)) <==>
      && !Nullish(it)
      && ToOntilooDateTime(Prop(it, "startTime")).Ok? && ToOntilooDateTime(Prop(it, "endTime")).Ok?
      && |ServiceIdsOf(it, cfg)| > 0 && RequestStaffOf(it) && Falsy(StaffIdOf(it, cfg))
  {
    if Nullish(it) then Err(TypeError)
    else
      var startTime := ToOntilooDateTime(Prop(it, "startTime"));
      var endTime := ToOntilooDateTime(Prop(it, "endTime"));
      if startTime.Err? || endTime.Err? then Err(DatetimeFormat)
      else
        var requestStaff := RequestStaffOf(it);
        var serviceIds := ServiceIdsOf(it, cfg);
        if |serviceIds| == 0 then Ok(Rejected(MissingServiceIds))
        else if !requestStaff then
          Ok(Mapped(BookingItem(startTime.value, endTime.value, false, serviceIds, None)))
        else
          var staffId := StaffIdOf(it, cfg);
          if Falsy(staffId) then Ok(Rejected(MissingStaffId))
          else Ok(Mapped(BookingItem(startTime.value, endTime.value, true, serviceIds, Some(staffId))))
  }

  /** The `MISSING_SERVICE_IDS` answer cannot happen: the default list is never empty. */
  lemma MissingServiceIdsUnreachable(it: Json, cfg: Config)
    requires ValidConfig(cfg)
    ensures MapItem(it, cfg) != Ok(Rejected(MissingServiceIds))
  {
  }

  /** Staff is requested unless the item says `requestStaff: false`; only then does the
      item go without a `staffId`. */
  lemma StaffRequestedByDefault(it: Json, cfg: Config)
    requires MapItem(it, cfg).Ok? && MapItem(it, cfg).value.Mapped?
    ensures MapItem(it, cfg).value.item.staffId.None? <==> Prop(it, "requestStaff") == Bool(false)
  {
  }

  /** The result of `items.map(callback)`: every outcome when no callback throws, or the
      outcomes before the first callback that throws and what it threw. */
  datatype Mapping =
    | Complete(outcomes: seq<ItemOutcome>)
    | Aborted(done: seq<ItemOutcome>, failure: Failure)

  /** `items.map(callback)`, left to right. */
  function MapItems(items: seq<Json>, cfg: Config): (r: Mapping)
    ensures r.Complete? ==> |r.outcomes| == |items|
    ensures r.Complete? ==> forall i :: 0 <= i < |items| ==> MapItem(items[i], cfg) == Ok(r.outcomes[i])
    ensures r.Aborted? ==> |r.done| < |items| && MapItem(items[|r.done|], cfg) == Err(r.failure)
    ensures r.Aborted? ==> forall i :: 0 <= i < |r.done| ==> MapItem(items[i], cfg) == Ok(r.done[i])
  {
    if items == [] then Complete([])
    else
      var first := MapItem(items[0], cfg);
      if first.Err? then Aborted([], first.error)
      else
        var rest := MapItems(items[1..], cfg);
        if rest.Complete? then Complete([first.value] + rest.outcomes)
        else Aborted([first.value] + rest.done, rest.failure)
  }

  /** The mapping is complete exactly when no item makes the callback throw. */
  lemma MapItemsCompleteIff(items: seq<Json>, cfg: Config)
    ensures MapItems(items, cfg).Complete? <==> forall i :: 0 <= i < |items| ==> MapItem(items[i], cfg).Ok?
  {
    var r := MapItems(items, cfg);
    if r.Aborted? {
      assert MapItem(items[|r.done|], cfg).Err?;
    }
  }

  /** The first item answered with an error, if any. */
  function FirstRejection(outcomes: seq<ItemOutcome>): (r: Option<ItemError>)
    ensures r.None? <==> forall i :: 0 <= i < |outcomes| ==> outcomes[i].Mapped?
    ensures r.Some? ==>
      exists i :: 0 <= i < |outcomes| && outcomes[i] == Rejected(r.value) && forall j :: 0 <= j < i ==> outcomes[j].Mapped?
  {
    if outcomes == [] then None
    else if outcomes[0].Rejected? then Some(outcomes[0].error)
    else
      var r := FirstRejection(outcomes[1..]);
      if r.Some? then
        var i :| 0 <= i < |outcomes[1..]| && outcomes[1..][i] == Rejected(r.value)
          && forall j :: 0 <= j < i ==> outcomes[1..][j].Mapped?;
        assert outcomes[i + 1] == Rejected(r.value);
        r
      else r
  }

  /** How many items were answered with an error. */
  function RejectionCount(outcomes: seq<ItemOutcome>): (n: nat)
    ensures n <= |outcomes|
    ensures n == 0 <==> FirstRejection(outcomes).None?
  {
    if outcomes == [] then 0
    else (if outcomes[0].Rejected? then 1 else 0) + RejectionCount(outcomes[1..])
  }

  // ---------------------------------------------------------------------------
  // Payload
  // ---------------------------------------------------------------------------

  /** The booking request `aibookRq`; None is the number NaN. */
  datatype Payload = Payload(
    customerId: Option<int>,
    group: Option<int>,
    items: seq<ItemOutcome>,
    note: Json,
    referenceId: Json,
    sourceType: Json)

  /** The booking request for a customer id and the mapped items, with the defaults for
      the fields the body leaves out. */
  function BuildPayload(body: Json, customerId: Json, outcomes: seq<ItemOutcome>, cfg: Config): (r: Payload)
    ensures r.customerId == ToNumber(customerId)
    ensures r.items == outcomes
    ensures Nullish(Prop(body, "group")) ==> r.group == Some(cfg.defaultGroup)
    ensures !Nullish(Prop(body, "group")) ==> r.group == ToNumber(Prop(body, "group"))
    ensures r.note == if Nullish(Prop(body, "note")) then Str("") else Prop(body, "note")
    ensures r.referenceId == if Nullish(Prop(body, "referenceId")) then Str("") else Prop(body, "referenceId")
    ensures r.sourceType == if Nullish(Prop(body, "sourceType")) then Str(cfg.defaultSourceType) else Prop(body, "sourceType")
  {
    var group := Prop(body, "group");
    Payload(
      ToNumber(customerId),
      if Nullish(group) then Some(cfg.defaultGroup) else ToNumber(group),
      outcomes,
      Coalesce(Prop(body, "note"), Str("")),
      Coalesce(Prop(body, "referenceId"), Str("")),
      Coalesce(Prop(body, "sourceType"), Str(cfg.defaultSourceType)))
  }

  /** A body that leaves out the optional fields gets the defaults. */
  lemma PayloadDefaults(customerId: Json, outcomes: seq<ItemOutcome>, cfg: Config)
    ensures var r := BuildPayload(Obj(map["items" := Arr([])]), customerId, outcomes, cfg);
      r.group == Some(cfg.defaultGroup) && r.note == Str("") && r.referenceId == Str("")
      && r.sourceType == Str(cfg.defaultSourceType)
  {
  }

  /** The appointment id reported back: `booked?.appointmentId ?? booked?.id ??
      booked?.data?.appointmentId ?? booked?.data?.id ?? null`. */
  function AppointmentId(booked: Json): Json {
    CoalesceAll([Prop(booked, "appointmentId"), Prop(booked, "id"),
                 Prop(Prop(booked, "data"), "appointmentId"), Prop(Prop(booked, "data"), "id"), Null])
  }

  /** The appointment id is never undefined: it is the first id the answer carries, and
      null when it carries none. */
  lemma AppointmentIdDefined(booked: Json)
    ensures AppointmentId(booked) != Undefined
    ensures AppointmentId(booked) == Null <==>
      && Nullish(Prop(booked, "appointmentId")) && Nullish(Prop(booked, "id"))
      && Nullish(Prop(Prop(booked, "data"), "appointmentId")) && Nullish(Prop(Prop(booked, "data"), "id"))
  {
    var vs := [Prop(booked, "appointmentId"), Prop(booked, "id"),
               Prop(Prop(booked, "data"), "appointmentId"), Prop(Prop(booked, "data"), "id"), Null];
    assert AppointmentId(booked) == CoalesceAll(vs);
    if exists i :: 0 <= i < 4 && !Nullish(vs[i]) {
      assert !Nullish(CoalesceAll(vs));
    } else {
      assert Nullish(vs[0]) && Nullish(vs[1]) && Nullish(vs[2]) && Nullish(vs[3]);
      assert forall i :: 0 <= i < |vs| ==> Nullish(vs[i]);
    }
  }

  // ---------------------------------------------------------------------------
  // The handler
  // ---------------------------------------------------------------------------

  /** The customer id the payload is built with: the given one, or the one the customer
      service answered with. */
  function CustomerIdFor(body: Json, created: Option<Json>): Json {
    var given := GivenCustomerId(body);
    if !Falsy(given) then given
    else if created.Some? then CreatedCustomerId(created.value)
    else Undefined
  }

  /** The handler gets past the customer step: an id is given, or the customer fields
      are readable, give a way to reach the customer, and the created customer has an id. */
  predicate CustomerResolved(body: Json, created: Option<Json>) {
    && (Falsy(GivenCustomerId(body)) ==> CustomerInfo(body).Ok? && HasContact(CustomerInfo(body).value))
    && !Falsy(CustomerIdFor(body, created))
  }

  /** Step 1 of the handler, resolving the customer id. `stop` is the reply when the
      handler ends here; otherwise customerId is the id it goes on with. */
  method ResolveCustomer(body: Json, created: Option<Json>)
    returns (customerCall: Option<CustomerRequest>, customerId: Json, stop: Option<Reply>)
    // A customer is created exactly when no id is given and the body gives a way to reach them.
    ensures customerCall.Some? <==>
      Falsy(GivenCustomerId(body)) && CustomerInfo(body).Ok? && HasContact(CustomerInfo(body).value)
    ensures customerCall.Some? ==> customerCall.value == CustomerInfo(body).value
    // The handler goes on exactly when the customer is resolved, with that customer's id.
    ensures stop.None? <==> CustomerResolved(body, created)
    ensures stop.None? ==> customerId == CustomerIdFor(body, created)
    ensures stop == Some(Respond(400, "MISSING_CUSTOMER_INFO")) <==>
      Falsy(GivenCustomerId(body)) && CustomerInfo(body).Ok? && !HasContact(CustomerInfo(body).value)
    ensures stop.Some? && stop.value.CreateFailed? <==>
      customerCall.Some? && created.Some? && Falsy(CreatedCustomerId(created.value))
    ensures stop.Some? && stop.value.CreateFailed? ==> stop.value.raw == created.value
    ensures Falsy(GivenCustomerId(body)) && CustomerInfo(body).Err? ==> stop == Some(Throws(CustomerInfo(body).error))
    ensures customerCall.Some? && created.None? ==> stop == Some(Throws(Upstream))
    ensures stop.Some? ==> stop.value == Respond(400, "MISSING_CUSTOMER_INFO") || stop.value.CreateFailed? || stop.value.Throws?
  {
    customerCall, stop := None, None;
    customerId := GivenCustomerId(body);
    if Falsy(customerId) {
      var info := CustomerInfo(body);
      if info.Err? {
        stop := Some(Throws(info.error));
        return;
      }
      if !HasContact(info.value) {
        stop := Some(Respond(400, "MISSING_CUSTOMER_INFO"));
        return;
      }
      customerCall := Some(info.value);
      if created.None? {
        stop := Some(Throws(Upstream));
        return;
      }
      customerId := CreatedCustomerId(created.value);
      if Falsy(customerId) {
        stop := Some(CreateFailed(created.value));
      }
    }
  }

  /** Steps 2 to 4 of the handler for a resolved customer: mapping the items, calling
      `bookAppointments` and answering. bookingCall is the payload of that call. When an
      item was answered with an error, its place in the payload holds the response object,
      the call throws while serialising it and nothing is sent; the reply is the first
      answer whatever `booked` is. */
  method BookItems(body: Json, customerId: Json, cfg: Config, booked: Option<Json>)
    returns (bookingCall: Option<Payload>, reply: Reply)
    requires HasItems(body)
    // `bookAppointments` is called exactly when every item maps and at most one is answered.
    ensures var m := MapItems(Prop(body, "items").items, cfg);
      bookingCall.Some? <==> m.Complete? && RejectionCount(m.outcomes) <= 1
    ensures var m := MapItems(Prop(body, "items").items, cfg);
      bookingCall.Some? ==> m.Complete? && bookingCall.value == BuildPayload(body, customerId, m.outcomes, cfg)
    // The first item answered with an error is the reply, whatever happens after it.
    ensures var m := MapItems(Prop(body, "items").items, cfg);
      var answered := FirstRejection(if m.Complete? then m.outcomes else m.done);
      && (answered.Some? ==> reply == Respond(400, ItemErrorCode(answered.value)))
      && (m.Aborted? && answered.None? ==> reply == Throws(m.failure))
    ensures reply.Respond? ==> reply.code == "MISSING_SERVICE_IDS" || reply.code == "MISSING_STAFF_ID"
    ensures !reply.CreateFailed?
    ensures reply.Booked? <==>
      bookingCall.Some? && FirstRejection(bookingCall.value.items).None? && booked.Some?
    ensures reply.Booked? ==> reply == Booked(AppointmentId(booked.value), booked.value)
    ensures bookingCall.Some? && FirstRejection(bookingCall.value.items).None? && booked.None? ==>
      reply == Throws(Upstream)
  {
    bookingCall := None;
    var mapping := MapItems(Prop(body, "items").items, cfg);
    if mapping.Aborted? {
      var answered := FirstRejection(mapping.done);
      reply := if answered.Some? then Respond(400, ItemErrorCode(answered.value)) else Throws(mapping.failure);
      return;
    }
    var answered := FirstRejection(mapping.outcomes);
    if RejectionCount(mapping.outcomes) > 1 {
      reply := Respond(400, ItemErrorCode(answered.value));
      return;
    }
    var payload := BuildPayload(body, customerId, mapping.outcomes, cfg);
    bookingCall := Some(payload);
    if answered.Some? {
      reply := Respond(400, ItemErrorCode(answered.value));
    } else if booked.None? {
      reply := Throws(Upstream);
    } else {
      reply := Booked(AppointmentId(booked.value), booked.value);
    }
  }

  /** The handler's main block for a request body. `created` and `booked` are the answers
      of `addCustomer` and `bookAppointments`, None when the call threw; the call made to
      each (if any) is returned with the reply. Answering an item with an error does not
      stop the handler, and only the first answer reaches the client: a second one throws
      (the response is already sent), inside `items.map` for a second rejected item and
      at the final `res.json` after the booking call. */
  method CreateAppointment(request: Json, cfg: Config, created: Option<Json>, booked: Option<Json>)
    returns (customerCall: Option<CustomerRequest>, bookingCall: Option<Payload>, reply: Reply)
    // INVALID_REQUEST comes first, before any customer work.
    ensures !HasItems(BodyOf(request)) <==> reply == Respond(400, "INVALID_REQUEST")
    ensures !HasItems(BodyOf(request)) ==> customerCall.None? && bookingCall.None?
    // A customer is created exactly when no id is given and the body gives a way to reach them.
    ensures customerCall.Some? <==>
      && HasItems(BodyOf(request)) && Falsy(GivenCustomerId(BodyOf(request)))
      && CustomerInfo(BodyOf(request)).Ok? && HasContact(CustomerInfo(BodyOf(request)).value)
    ensures customerCall.Some? ==> customerCall.value == CustomerInfo(BodyOf(request)).value
    ensures reply == Respond(400, "MISSING_CUSTOMER_INFO") <==>
      && HasItems(BodyOf(request)) && Falsy(GivenCustomerId(BodyOf(request)))
      && CustomerInfo(BodyOf(request)).Ok? && !HasContact(CustomerInfo(BodyOf(request)).value)
    ensures reply.CreateFailed? <==>
      customerCall.Some? && created.Some? && Falsy(CreatedCustomerId(created.value))
    ensures reply.CreateFailed? ==> reply.raw == created.value
    ensures HasItems(BodyOf(request)) && Falsy(GivenCustomerId(BodyOf(request))) && CustomerInfo(BodyOf(request)).Err? ==>
      reply == Throws(CustomerInfo(BodyOf(request)).error)
    ensures customerCall.Some? && created.None? ==> reply == Throws(Upstream) && bookingCall.None?
    // `bookAppointments` is called for a customer id that is not falsy, with every item
    // mapped and at most one of them answered with an error.
    ensures bookingCall.Some? <==>
      && HasItems(BodyOf(request)) && CustomerResolved(BodyOf(request), created)
      && MapItems(Prop(BodyOf(request), "items").items, cfg).Complete?
      && RejectionCount(MapItems(Prop(BodyOf(request), "items").items, cfg).outcomes) <= 1
    ensures bookingCall.Some? ==>
      bookingCall.value == BuildPayload(BodyOf(request), CustomerIdFor(BodyOf(request), created),
                                        MapItems(Prop(BodyOf(request), "items").items, cfg).outcomes, cfg)
    ensures bookingCall.Some? ==> |bookingCall.value.items| == |Prop(BodyOf(request), "items").items|
    // The first item answered with an error is the reply, whatever happens after it.
    ensures HasItems(BodyOf(request)) && CustomerResolved(BodyOf(request), created) ==>
      var m := MapItems(Prop(BodyOf(request), "items").items, cfg);
      var answered := FirstRejection(if m.Complete? then m.outcomes else m.done);
      && (answered.Some? ==> reply == Respond(400, ItemErrorCode(answered.value)))
      && (m.Aborted? && answered.None? ==> reply == Throws(m.failure))
    ensures reply.Booked? <==>
      bookingCall.Some? && FirstRejection(bookingCall.value.items).None? && booked.Some?
    ensures reply.Booked? ==> reply == Booked(AppointmentId(booked.value), booked.value)
    ensures bookingCall.Some? && FirstRejection(bookingCall.value.items).None? && booked.None? ==>
      reply == Throws(Upstream)
  {
    customerCall, bookingCall := None, None;
    var body := BodyOf(request);
    if !HasItems(body) {
      reply := Respond(400, "INVALID_REQUEST");
      return;
    }
    var customerId, stop;
    customerCall, customerId, stop := ResolveCustomer(body, created);
    if stop.Some? {
      reply := stop.value;
      return;
    }
    bookingCall, reply := BookItems(body, customerId, cfg, booked);
  }

  /** An item answered with an error does not stop the handler: for a request with one
      item whose `staffId` is 0, the client is answered `MISSING_STAFF_ID` and
      `bookAppointments` is still called, with the answered item in the item's place. In
      the source that item is the response object, which cannot be serialised, so the
      call throws before anything reaches the booking service. */
  method RejectedItemPassedToBooking(booked: Option<Json>) returns (bookingCall: Option<Payload>, reply: Reply)
    ensures reply == Respond(400, "MISSING_STAFF_ID")
    ensures bookingCall.Some? && bookingCall.value.items == [Rejected(MissingStaffId)]
  {
    var item := Obj(map["staffId" := Num(0)]);
    var request := Obj(map["customerId" := Num(42), "items" := Arr([item])]);
    StaffZeroRejected(item);
    GivenIdRequest(request, [item]);
    var outcomes := [Rejected(MissingStaffId)];
    assert MapItems([item], DefaultConfig) == Complete(outcomes);
    assert RejectionCount(outcomes) == 1 && FirstRejection(outcomes) == Some(MissingStaffId);
    var customerCall;
    customerCall, bookingCall, reply := CreateAppointment(request, DefaultConfig, None, booked);
    assert |bookingCall.value.items| == 1;
  }

  /** A second item answered with an error throws inside `items.map`, so with two such
      items the client gets the first answer and `bookAppointments` is not called. */
  method TwoRejectedItemsNotBooked(booked: Option<Json>) returns (bookingCall: Option<Payload>, reply: Reply)
    ensures reply == Respond(400, "MISSING_STAFF_ID")
    ensures bookingCall.None?
  {
    var item := Obj(map["staffId" := Num(0)]);
    var request := Obj(map["customerId" := Num(42), "items" := Arr([item, item])]);
    StaffZeroRejected(item);
    GivenIdRequest(request, [item, item]);
    var outcomes := [Rejected(MissingStaffId), Rejected(MissingStaffId)];
    assert MapItems([item, item], DefaultConfig) == Complete(outcomes) by {
      assert [item, item][1..] == [item];
    }
    assert RejectionCount(outcomes) == 2 && FirstRejection(outcomes) == Some(MissingStaffId) by {
      assert outcomes[1..] == [Rejected(MissingStaffId)];
    }
    var customerCall;
    customerCall, bookingCall, reply := CreateAppointment(request, DefaultConfig, None, booked);
  }

  /** An item whose only field is `staffId: 0` is answered `MISSING_STAFF_ID`. */
  lemma StaffZeroRejected(item: Json)
    requires item == Obj(map["staffId" := Num(0)])
    ensures MapItem(item, DefaultConfig) == Ok(Rejected(MissingStaffId))
  {
    assert "startTime" != "staffId" && "endTime" != "staffId";
    assert "requestStaff" != "staffId" && "serviceIds" != "staffId";
    StaffZeroOnly(item);
  }

  lemma StaffZeroOnly(item: Json)
    requires item.Obj? && Prop(item, "staffId") == Num(0)
    requires Prop(item, "startTime") == Undefined && Prop(item, "endTime") == Undefined
    requires Prop(item, "requestStaff") == Undefined && Prop(item, "serviceIds") == Undefined
    ensures MapItem(item, DefaultConfig) == Ok(Rejected(MissingStaffId))
  {
    assert ToOntilooDateTime(Undefined) == Ok("");
    assert RequestStaffOf(item);
    assert |ServiceIdsOf(item, DefaultConfig)| > 0;
    assert StaffIdOf(item, DefaultConfig) == Num(0);
  }

  /** A request that gives customer 42 and a non-empty item list gets past the item
      check and the customer step. */
  lemma GivenIdRequest(request: Json, items: seq<Json>)
    requires items != [] && request == Obj(map["customerId" := Num(42), "items" := Arr(items)])
    ensures BodyOf(request) == request && HasItems(request)
    ensures Prop(request, "items").items == items
    ensures GivenCustomerId(request) == Num(42) && CustomerResolved(request, None)
  {
  }
}
