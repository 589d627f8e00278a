/**
 * Reading the attribute dictionaries back into spans and blocks: the partner
 * of the `__dict__` view in `SlackObjects`. A dictionary parses only when it
 * has exactly the members the source's constructors can produce, so the
 * round trip holds in both directions, for spans, span lists, blocks and
 * block arrays alike.
 */
module DictParse {
  import opened Wrappers
  import opened SlackObjects

  /** A span dictionary: string `type` and `text`, an optional boolean `emoji`, nothing else. */
  function ParseSpan(m: map<string, Value>): Option<Span>
  {
    if && "type" in m && m["type"].Str?
       && "text" in m && m["text"].Str?
       && ("emoji" in m ==> m["emoji"].Bool?)
       && m.Keys <= {"type", "text", "emoji"}
    then Some(Span(m["type"].s, m["text"].s,
                   if "emoji" in m then Some(m["emoji"].b) else None))
    else None
  }

  /** A list whose every item is a span dictionary. */
  function ParseSpans(vs: seq<Value>): (r: Option<seq<Span>>)
    ensures r.Some? ==> |r.value| == |vs|
    ensures r.Some? ==> forall i :: 0 <= i < |vs| ==>
      vs[i].Obj? && ParseSpan(vs[i].members) == Some(r.value[i])
  {
    if |vs| == 0 then Some([])
    else if !vs[0].Obj? then None
    else match (ParseSpan(vs[0].members), ParseSpans(vs[1..]))
      case (Some(s), Some(rest)) => Some([s] + rest)
      case _ => None
  }

  /**
   * A block dictionary: string `type`, an optional non-empty list of span
   * dictionaries under `fields`, an optional span dictionary under `text`.
   */
  function ParseBlock(m: map<string, Value>): Option<Block>
  {
    if !("type" in m && m["type"].Str?) || !(m.Keys <= {"type", "fields", "text"}) then None
    else
      var fields :=
        if "fields" !in m then Some(None)
        else if !m["fields"].Arr? || m["fields"].items == [] then None
        else match ParseSpans(m["fields"].items)
          case Some(fs) => Some(Some(fs))
          case None => None;
      var text :=
        if "text" !in m then Some(None)
        else if !m["text"].Obj? then None
        else match ParseSpan(m["text"].members)
          case Some(t) => Some(Some(t))
          case None => None;
      if fields.Some? && text.Some? then Some(Block(m["type"].s, text.value, fields.value))
      else None
  }

  /** A list whose every item is a block dictionary. */
  function ParseBlocks(vs: seq<Value>): (r: Option<seq<Block>>)
    ensures r.Some? ==> |r.value| == |vs|
    ensures r.Some? ==> forall i :: 0 <= i < |vs| ==>
      vs[i].Obj? && ParseBlock(vs[i].members) == Some(r.value[i])
  {
    if |vs| == 0 then Some([])
    else if !vs[0].Obj? then None
    else match (ParseBlock(vs[0].members), ParseBlocks(vs[1..]))
      case (Some(b), Some(rest)) => Some([b] + rest)
      case _ => None
  }

  /** Reading back a span's dictionary gives the span. */
  lemma SpanRoundTrip(s: Span)
    ensures ParseSpan(SpanDict(s)) == Some(s)
  {
  }

  /** A dictionary that parses as a span is exactly that span's dictionary. */
  lemma SpanDictOfParse(m: map<string, Value>)
    requires ParseSpan(m).Some?
    ensures SpanDict(ParseSpan(m).value) == m
  {
  }

  lemma {:induction false} SpansRoundTrip(ss: seq<Span>)
    ensures ParseSpans(SpanValues(ss)) == Some(ss)
  {
    if |ss| > 0 {
      SpanRoundTrip(ss[0]);
      assert SpanValues(ss)[1..] == SpanValues(ss[1..]);
      SpansRoundTrip(ss[1..]);
      assert [ss[0]] + ss[1..] == ss;
    }
  }

  /** Reading back a well-formed block's dictionary gives the block. */
  lemma BlockRoundTrip(b: Block)
    requires WellFormed(b)
    ensures ParseBlock(BlockDict(b)) == Some(b)
  {
    if b.fields.Some? {
      SpansRoundTrip(b.fields.value);
    }
    if b.text.Some? {
      SpanRoundTrip(b.text.value);
    }
  }

  /** Only well-formed blocks can be read back: a parsed field list is never empty. */
  lemma ParsedBlockWellFormed(m: map<string, Value>)
    requires ParseBlock(m).Some?
    ensures WellFormed(ParseBlock(m).value)
  {
  }

  /**
   * The array handed to the JSON encoder reads back as the very blocks it was
   * made from, when every block is one `NewBlock` can produce.
   */
  lemma {:induction false} BlocksRoundTrip(bs: seq<Block>)
    requires forall i :: 0 <= i < |bs| ==> WellFormed(bs[i])
    ensures ParseBlocks(BlocksValue(bs).items) == Some(bs)
  {
    if |bs| > 0 {
      BlockRoundTrip(bs[0]);
      assert BlocksValue(bs).items[1..] == BlocksValue(bs[1..]).items;
      BlocksRoundTrip(bs[1..]);
      assert [bs[0]] + bs[1..] == bs;
    }
  }

  /** A list that parses as spans is exactly the list of those spans' dictionaries. */
  lemma SpansOfParse(vs: seq<Value>)
    requires ParseSpans(vs).Some?
    ensures SpanValues(ParseSpans(vs).value) == vs
  {
    var ss := ParseSpans(vs).value;
    forall i | 0 <= i < |vs|
      ensures SpanValues(ss)[i] == vs[i]
    {
      SpanDictOfParse(vs[i].members);
    }
  }

  /** A dictionary that parses as a block is exactly that block's dictionary. */
  lemma BlockDictOfParse(m: map<string, Value>)
    requires ParseBlock(m).Some?
    ensures BlockDict(ParseBlock(m).value) == m
  {
    var b := ParseBlock(m).value;
    if "fields" in m {
      SpansOfParse(m["fields"].items);
    }
    if "text" in m {
      SpanDictOfParse(m["text"].members);
    }
    var d := BlockDict(b);
    assert d.Keys == m.Keys;
  }

  /** An array that parses as blocks is exactly the encoded array of those blocks. */
  lemma BlocksOfParse(vs: seq<Value>)
    requires ParseBlocks(vs).Some?
    ensures BlocksValue(ParseBlocks(vs).value) == Arr(vs)
  {
    var bs := ParseBlocks(vs).value;
    forall i | 0 <= i < |vs|
      ensures BlocksValue(bs).items[i] == vs[i]
    {
      BlockDictOfParse(vs[i].members);
    }
  }
}
