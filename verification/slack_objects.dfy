/**
 * The attribute-bag objects of the Slack message: `Field`, `Text` and `Block`
 * (lambda-code/lambda_function.py:59-88), and the `__dict__` view of each that
 * the handler hands to the JSON encoder.
 *
 * In the source these are Python objects whose attributes are set only under
 * a truthiness test, so an attribute is either present or absent. Here every
 * optional attribute is an `Option`, and `SpanDict`/`BlockDict` give the
 * dictionary the object's `__dict__` would be, so "the member is present"
 * reads literally as "the key is in the map".
 */
module SlackObjects {
  import opened Wrappers

  /** The JSON-like values that appear in an attribute dictionary. */
  datatype Value =
    | Str(s: string)
    | Bool(b: bool)
    | Obj(members: map<string, Value>)
    | Arr(items: seq<Value>)

  /** Python truthiness of a value, as used by `kwargs.get(...)` tests. */
  predicate Truthy(v: Value)
  {
    match v
    case Str(s) => s != ""
    case Bool(b) => b
    case Obj(m) => m != map[]
    case Arr(a) => a != []
  }

  /**
   * A text object: the shape shared by `Field` and `Text`. `kind` is the
   * source's `type` attribute ("plain_text" or "mrkdwn").
   */
  datatype Span = Span(kind: string, text: string, emoji: Option<bool>)

  /**
   * A display block. `text` and `fields` are the two optional attributes of
   * the source's `Block`; `None` means the attribute was never set.
   */
  datatype Block = Block(kind: string, text: Option<Span>, fields: Option<seq<Span>>)

  /** The `__dict__` of a span: `type` and `text`, plus `emoji` when set. */
  function SpanDict(s: Span): (m: map<string, Value>)
    ensures "type" in m && m["type"] == Str(s.kind)
    ensures "text" in m && m["text"] == Str(s.text)
    ensures "emoji" in m <==> s.emoji.Some?
    ensures s.emoji.Some? ==> m["emoji"] == Bool(s.emoji.value)
    ensures m.Keys <= {"type", "text", "emoji"}
  {
    var base := map["type" := Str(s.kind), "text" := Str(s.text)];
    match s.emoji
    case None => base
    case Some(e) => base["emoji" := Bool(e)]
  }

  /** The list `[ob.__dict__ for ob in fields]`. */
  function SpanValues(ss: seq<Span>): (vs: seq<Value>)
    ensures |vs| == |ss|
    ensures forall i :: 0 <= i < |ss| ==> vs[i] == Obj(SpanDict(ss[i]))
  {
    seq(|ss|, i requires 0 <= i < |ss| => Obj(SpanDict(ss[i])))
  }

  /** The `__dict__` of a block: `type`, plus `fields` and `text` when set. */
  function BlockDict(b: Block): (m: map<string, Value>)
    ensures "type" in m && m["type"] == Str(b.kind)
    ensures "fields" in m <==> b.fields.Some?
    ensures b.fields.Some? ==> m["fields"] == Arr(SpanValues(b.fields.value))
    ensures "text" in m <==> b.text.Some?
    ensures b.text.Some? ==> m["text"] == Obj(SpanDict(b.text.value))
    ensures m.Keys <= {"type", "fields", "text"}
  {
    var withType := map["type" := Str(b.kind)];
    var withFields :=
      match b.fields
      case None => withType
      case Some(fs) => withType["fields" := Arr(SpanValues(fs))];
    match b.text
    case None => withFields
    case Some(t) => withFields["text" := Obj(SpanDict(t))]
  }

  /** The array of block dictionaries handed to `json.dumps` (line 154). */
  function BlocksValue(bs: seq<Block>): (v: Value)
    ensures v.Arr? && |v.items| == |bs|
    ensures forall i :: 0 <= i < |bs| ==> v.items[i] == Obj(BlockDict(bs[i]))
  {
    Arr(seq(|bs|, i requires 0 <= i < |bs| => Obj(BlockDict(bs[i]))))
  }

  /**
   * `Field(type, text, emoji)`: every attribute is assigned unconditionally,
   * so `emoji` is present even when it is false.
   */
  function NewField(kind: string, text: string, emoji: bool): (f: Span)
    ensures "emoji" in SpanDict(f) && SpanDict(f)["emoji"] == Bool(emoji)
    ensures f.kind == kind && f.text == text
  {
    Span(kind, text, Some(emoji))
  }

  /**
   * `Text(type, text, emoji=...)`: `emoji` is an optional keyword argument
   * and is stored only when it is truthy. `None` is the argument left out.
   */
  function NewText(kind: string, text: string, emoji: Option<bool>): (t: Span)
    ensures "emoji" in SpanDict(t) <==> emoji == Some(true)
    ensures t.emoji.Some? ==> t.emoji.value
    ensures t.kind == kind && t.text == text
  {
    var stored := if emoji.Some? && Truthy(Bool(emoji.value)) then emoji else None;
    Span(kind, text, stored)
  }

  /**
   * `Block(type, text=..., fields=...)`: each keyword argument is stored only
   * when it is truthy. The `text` argument is a span's `__dict__`, which always
   * holds `type` and `text`, so it is truthy whenever it is given; the
   * `fields` argument is a list, truthy exactly when it is non-empty.
   */
  function NewBlock(kind: string, text: Option<Span>, fields: Option<seq<Span>>): (b: Block)
    ensures b.kind == kind
    ensures b.text == text
    ensures b.fields.Some? <==> fields.Some? && |fields.value| > 0
    ensures b.fields.Some? ==> b.fields == fields
    ensures WellFormed(b)
  {
    var storedFields :=
      if fields.Some? && Truthy(Arr(SpanValues(fields.value))) then fields else None;
    var storedText :=
      if text.Some? && Truthy(Obj(SpanDict(text.value))) then text else None;
    Block(kind, storedText, storedFields)
  }

  /** A block `NewBlock` can produce: a stored field list is never empty. */
  predicate WellFormed(b: Block)
  {
    b.fields.Some? ==> |b.fields.value| > 0
  }
}
