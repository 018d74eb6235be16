/** Structured payloads and the text encodings they are stored in.

    A Scan's `result` column holds base64 of the UTF-8 bytes of a JSON text
    (the envelope); a Report's `classification` column holds plain JSON
    text; a post's `content` field holds base64 of its UTF-8 text. The JSON
    and base64 library routines are not modelled: they are supplied as a
    `Codecs` value, and `Lawful` states the only facts about them that the
    model relies on. */
module Envelope {
  import opened Outcomes

  /** A value `json.loads` can return. Objects are dictionaries, so a key
      occurs at most once. A number is the decimal its literal writes,
      `mantissa` times ten to the power `exponent`. */
  datatype Json =
    | JNull
    | JBool(b: bool)
    | JNum(mantissa: int, exponent: int)
    | JStr(s: string)
    | JArr(items: seq<Json>)
    | JObj(fields: map<string, Json>)

  /** `d.get(key, default)` on a dictionary. */
  function Get(fields: map<string, Json>, key: string, default: Json): (v: Json)
    ensures key in fields ==> v == fields[key]
    ensures key !in fields ==> v == default
  {
    if key in fields then fields[key] else default
  }

  /** The library routines: `json.dumps`, `json.loads`,
      `base64.b64encode(t.encode('utf-8')).decode('utf-8')` and
      `base64.b64decode(s).decode('utf-8')`. The two decoders report the
      exception they would raise as an error message. */
  datatype Codecs = Codecs(
    dumps: Json -> string,
    loads: string -> Result<Json>,
    b64encode: string -> string,
    b64decode: string -> Result<string>)

  /** What the model assumes of the library: each decoder inverts its
      encoder, base64 of the empty text is empty, and the empty text is not
      a JSON document. */
  ghost predicate Lawful(c: Codecs) {
    && (forall j :: c.loads(c.dumps(j)) == Ok(j))
    && (forall t :: c.b64decode(c.b64encode(t)) == Ok(t))
    && c.b64encode("") == ""
    && c.loads("").Err?
  }

  /** The envelope of a payload: base64 over the JSON text. */
  function Encode(c: Codecs, payload: Json): string {
    c.b64encode(c.dumps(payload))
  }

  /** Opening an envelope: base64 and UTF-8 decoding, then JSON parsing;
      either step may fail. */
  function Decode(c: Codecs, envelope: string): Result<Json> {
    match c.b64decode(envelope)
    case Err(e) => Err(e)
    case Ok(text) => c.loads(text)
  }

  /** Opening an envelope gives back the payload that was sealed in it. */
  lemma DecodeEncode(c: Codecs, payload: Json)
    requires Lawful(c)
    ensures Decode(c, Encode(c, payload)) == Ok(payload)
  {
  }

  /** The empty text, which is what a running Scan holds, is not an envelope. */
  lemma DecodeEmptyFails(c: Codecs)
    requires Lawful(c)
    ensures Decode(c, "").Err?
  {
    assert c.b64decode(c.b64encode("")) == Ok("");
  }

  /** `{"posts": [...]}`, the object both scrapers encode: the posts under
      the single key `posts`, each as the object `toJson` makes of it, in order. */
  function PostsObject<P>(posts: seq<P>, toJson: P -> Json): (j: Json)
    ensures j.JObj? && j.fields.Keys == {"posts"} && j.fields["posts"].JArr?
    ensures |j.fields["posts"].items| == |posts|
    ensures forall k :: 0 <= k < |posts| ==> j.fields["posts"].items[k] == toJson(posts[k])
  {
    JObj(map["posts" := JArr(seq(|posts|, k requires 0 <= k < |posts| => toJson(posts[k])))])
  }
}
