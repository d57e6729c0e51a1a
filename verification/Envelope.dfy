/** The canonical event envelope that every tenant broadcast sends, locally and relayed. */
module Envelope {
  import opened Options

  /** A decoded JSON value; the broker's codec is taken to be lossless on these. */
  datatype Json =
    | Null
    | Bool(b: bool)
    | Number(n: real)
    | Str(s: string)
    | List(items: seq<Json>)
    | Object(fields: map<string, Json>)

  predicate Truthy(j: Json) {
    match j
    case Null => false
    case Bool(b) => b
    case Number(n) => n != 0.0
    case Str(s) => s != ""
    case List(items) => items != []
    case Object(fields) => fields != map[]
  }

  /** A missing key reads as null. */
  function Get(fields: map<string, Json>, key: string): Json {
    if key in fields then fields[key] else Null
  }

  function Or(j: Json, default: Json): Json {
    if Truthy(j) then j else default
  }

  datatype EnvelopeError = EmptyTenant | EventNotObject | EmptyType | DataNotObject | TenantMismatch

  /** The envelope sent for `event` in `tenant`; `now` is the clock's ISO timestamp. */
  function Normalise(tenant: string, event: Json, now: string): Result<Json, EnvelopeError> {
    if tenant == "" then Err(EmptyTenant)
    else if !event.Object? then Err(EventNotObject)
    else if !Truthy(Get(event.fields, "type")) then Err(EmptyType)
    else
      var data := Or(Get(event.fields, "data"), Object(map[]));
      if !data.Object? then Err(DataNotObject)
      else if "tenant_key" in data.fields && data.fields["tenant_key"] != Str(tenant) then Err(TenantMismatch)
      else Ok(Object(map[
        "type" := Get(event.fields, "type"),
        "timestamp" := Or(Get(event.fields, "timestamp"), Str(now)),
        "schema_version" := Or(Get(event.fields, "schema_version"), Str("1.0")),
        "data" := Object(data.fields["tenant_key" := Str(tenant)])]))
  }

  /** Python's truth: everything but null, false, zero and the empty string, list and object. */
  lemma TruthyIff(j: Json)
    ensures Truthy(j) <==> j !in {Null, Bool(false), Number(0.0), Str(""), List([]), Object(map[])}
  {
  }

  /**
   What a client is sent: exactly the four envelope keys, the event's type, its timestamp and schema version
   if it has them, every data field of the event, and the tenant.
   */
  lemma EnvelopeCarriesEvent(tenant: string, event: Json, now: string)
    requires Normalise(tenant, event, now).Ok?
    ensures var out := Normalise(tenant, event, now).value;
            && out.Object? && out.fields.Keys == {"type", "timestamp", "schema_version", "data"}
            && "type" in event.fields && out.fields["type"] == event.fields["type"]
            && out.fields["timestamp"] == (if "timestamp" in event.fields && Truthy(event.fields["timestamp"])
                                           then event.fields["timestamp"] else Str(now))
            && out.fields["schema_version"]
               == (if "schema_version" in event.fields && Truthy(event.fields["schema_version"])
                   then event.fields["schema_version"] else Str("1.0"))
            && (var given := if "data" in event.fields && event.fields["data"].Object? then event.fields["data"].fields
                             else map[];
                out.fields["data"] == Object(given["tenant_key" := Str(tenant)])
                && forall k :: k in given ==> out.fields["data"].fields[k] == given[k])
  {
  }

  /** A broadcast is accepted exactly when it names a tenant and a typed event whose data does not claim another one. */
  lemma AcceptedIff(tenant: string, event: Json, now: string)
    ensures Normalise(tenant, event, now).Ok? <==>
            && tenant != "" && event.Object? && Truthy(Get(event.fields, "type"))
            && (var data := Get(event.fields, "data");
                !Truthy(data)
                  || (data.Object? && ("tenant_key" in data.fields ==> data.fields["tenant_key"] == Str(tenant))))
  {
  }

  /** The first thing wrong decides the error. */
  lemma RejectedIff(tenant: string, event: Json, now: string)
    ensures var out := Normalise(tenant, event, now);
            && (out == Err(EmptyTenant) <==> tenant == "")
            && (out == Err(EventNotObject) <==> tenant != "" && !event.Object?)
            && (out == Err(EmptyType) <==>
                  tenant != "" && event.Object? && ("type" in event.fields ==> !Truthy(event.fields["type"])))
            && (out == Err(DataNotObject) <==>
                  && tenant != "" && event.Object? && "type" in event.fields && Truthy(event.fields["type"])
                  && "data" in event.fields && Truthy(event.fields["data"]) && !event.fields["data"].Object?)
            && (out == Err(TenantMismatch) <==>
                  && tenant != "" && event.Object? && "type" in event.fields && Truthy(event.fields["type"])
                  && "data" in event.fields && event.fields["data"].Object?
                  && "tenant_key" in event.fields["data"].fields
                  && event.fields["data"].fields["tenant_key"] != Str(tenant))
  {
  }

  /** Relayed clients get the same envelope as local ones: normalising again, at any later time, changes nothing. */
  lemma NormaliseIsFixedPoint(tenant: string, event: Json, now: string, later: string)
    requires now != "" && Normalise(tenant, event, now).Ok?
    ensures var out := Normalise(tenant, event, now).value;
            Normalise(tenant, out, later) == Ok(out)
  {
    var out := Normalise(tenant, event, now).value;
    var data := out.fields["data"];
    assert "tenant_key" in data.fields;
    assert Truthy(data);
    assert data.fields["tenant_key" := Str(tenant)] == data.fields;
    var again := Normalise(tenant, out, later).value;
    assert again.fields == out.fields;
  }

  /** An envelope made for one tenant is refused for every other. */
  lemma EnvelopeIsTenantBound(tenant: string, event: Json, now: string, other: string, later: string)
    requires Normalise(tenant, event, now).Ok? && other != "" && other != tenant
    ensures Normalise(other, Normalise(tenant, event, now).value, later) == Err(TenantMismatch)
  {
  }
}
