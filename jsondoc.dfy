/**
 * JSON documents as the workers see them after `json.loads`, and the
 * notification envelope in which the queue delivers a published message.
 *
 * JSON text is modelled by the document it denotes: `JText(doc)` is a JSON
 * string whose characters are `json.dumps(doc)`. `json.loads` succeeds on
 * exactly such a value; on anything else it raises.
 */
module JsonDoc {
  import opened Wrappers

  datatype Json =
    | JNull
    | JBool(b: bool)
    | JInt(i: int)
    | JStr(s: string)
    | JArr(items: seq<Json>)
    | JObj(fields: map<string, Json>)
    | JText(doc: Json)

  /** Why decoding a message raised in the worker. */
  datatype DecodeError =
    | NotJsonText
    | MissingKey(key: string)
    | NotAString(key: string)
    | NotAList
    | EmptyList

  /** `json.dumps(doc)` */
  function Dumps(doc: Json): Json
  {
    JText(doc)
  }

  /** `json.loads(v)` */
  function Loads(v: Json): (r: Result<Json, DecodeError>)
    ensures r.Ok? <==> v.JText?
    ensures r.Ok? ==> Dumps(r.value) == v
  {
    if v.JText? then Ok(v.doc) else Err(NotJsonText)
  }

  /** `v[key]` on a decoded object; a missing key raises `KeyError`. */
  function Field(v: Json, key: string): (r: Result<Json, DecodeError>)
    ensures r.Ok? <==> v.JObj? && key in v.fields
    ensures r.Ok? ==> r.value == v.fields[key]
  {
    if v.JObj? && key in v.fields then Ok(v.fields[key]) else Err(MissingKey(key))
  }

  /** `v[key]` where the worker goes on to use the value as a string. */
  function StrField(v: Json, key: string): (r: Result<string, DecodeError>)
    ensures r.Ok? <==> v.JObj? && key in v.fields && v.fields[key].JStr?
    ensures r.Ok? ==> v.fields[key] == JStr(r.value)
  {
    if v.JObj? && key in v.fields && v.fields[key].JStr? then Ok(v.fields[key].s)
    else if v.JObj? && key in v.fields then Err(NotAString(key))
    else Err(MissingKey(key))
  }

  /** `v[0]` on a decoded list. */
  function First(v: Json): (r: Result<Json, DecodeError>)
    ensures r.Ok? <==> v.JArr? && |v.items| > 0
    ensures r.Ok? ==> r.value == v.items[0]
  {
    if !v.JArr? then Err(NotAList)
    else if |v.items| == 0 then Err(EmptyList)
    else Ok(v.items[0])
  }

  /**
   * The body of the queue message produced when a publisher calls
   * `publish(Message=json.dumps({'default': json.dumps(data)}), MessageStructure='json')`
   * on a topic the queue subscribes to: the notification's `Message` member is the
   * `default` string.
   */
  function Delivered(data: Json): Json
  {
    var published := JObj(map["default" := Dumps(data)]);
    Dumps(JObj(map["Type" := JStr("Notification"), "Message" := published.fields["default"]]))
  }

  /** `json.loads(json.loads(body)["Message"])`: the two decoding steps every queue worker does first. */
  function Unwrap(body: Json): (r: Result<Json, DecodeError>)
    ensures r.Ok? ==> body.JText? && body.doc.JObj? && "Message" in body.doc.fields
  {
    match Loads(body)
    case Err(e) => Err(e)
    case Ok(outer) =>
      match Field(outer, "Message")
      case Err(e) => Err(e)
      case Ok(inner) => Loads(inner)
  }

  /** Unwrapping a delivered notification gives back the published document. */
  lemma UnwrapDelivered(data: Json)
    ensures Unwrap(Delivered(data)) == Ok(data)
  {
  }
}
