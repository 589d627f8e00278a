/**
 * The Slack message builder of `lambda_handler`
 * (lambda-code/lambda_function.py:105-144): a decoded cost-anomaly record
 * becomes a header block, five single-span section blocks and one
 * fields-section per root cause.
 */
module MessageBuilder {
  import opened Wrappers
  import opened SlackObjects

  /**
   * One root cause: its attributes as key/value pairs in the dictionary's
   * iteration order.
   */
  type RootCause = seq<(string, string)>

  /**
   * The decoded anomaly record. `totalImpact` is the cost as `str()` renders
   * it; the other members are the record's strings.
   */
  datatype AnomalyEvent = AnomalyEvent(
    totalImpact: string,
    anomalyStartDate: string,
    anomalyEndDate: string,
    anomalyDetailsLink: string,
    rootCauses: seq<RootCause>)

  const HeaderLabel := ":warning: Cost Anomaly Detected "
  const CostLabel := "*Total Anomaly Cost*: $"
  const StartDateLabel := "*Anomaly Start Date*: "
  const EndDateLabel := "*Anomaly End Date*: "
  const DetailsLinkLabel := "*Anomaly Details Link*: "
  const RootCausesLabel := "*Root Causes* :mag:"
  const AttributeSeparator := " : "

  /** The attributes have distinct keys, as the keys of a dictionary do. */
  predicate DistinctKeys(rc: RootCause)
  {
    forall i, j :: 0 <= i < j < |rc| ==> rc[i].0 != rc[j].0
  }

  /** `rootCause[key]`: the value stored under `key`, if any. */
  function Lookup(rc: RootCause, key: string): (r: Option<string>)
    ensures r.None? <==> forall i :: 0 <= i < |rc| ==> rc[i].0 != key
  {
    if |rc| == 0 then None
    else if rc[0].0 == key then Some(rc[0].1)
    else Lookup(rc[1..], key)
  }

  /** The `mrkdwn` section holding one label-and-value line. */
  function MarkdownSection(line: string): Block
  {
    NewBlock("section", Some(NewText("mrkdwn", line, None)), None)
  }

  /** The six blocks that open every message, in append order (lines 122-136). */
  function SummaryBlocks(e: AnomalyEvent): (bs: seq<Block>)
    ensures |bs| == 6
    ensures bs[0].kind == "header"
    ensures forall i :: 1 <= i < 6 ==> bs[i].kind == "section"
    ensures forall i :: 0 <= i < 6 ==> bs[i].text.Some? && bs[i].fields.None?
  {
    [ NewBlock("header", Some(NewText("plain_text", HeaderLabel, Some(true))), None),
      MarkdownSection(CostLabel + e.totalImpact),
      MarkdownSection(StartDateLabel + e.anomalyStartDate),
      MarkdownSection(EndDateLabel + e.anomalyEndDate),
      MarkdownSection(DetailsLinkLabel + e.anomalyDetailsLink),
      MarkdownSection(RootCausesLabel) ]
  }

  /** The field one attribute becomes (lines 142-143). */
  function AttributeField(kv: (string, string)): Span
  {
    NewField("plain_text", kv.0 + AttributeSeparator + kv.1, false)
  }

  /** What the field of attribute `kv` must be: a plain, non-emoji "key : value" line. */
  predicate IsAttributeField(kv: (string, string), f: Span)
  {
    f == Span("plain_text", kv.0 + " : " + kv.1, Some(false))
  }

  /** The inner loop (lines 140-143): one field per attribute, appended in iteration order. */
  function RootCauseFields(rc: RootCause): (fs: seq<Span>)
    ensures |fs| == |rc|
    ensures forall j :: 0 <= j < |rc| ==> IsAttributeField(rc[j], fs[j])
  {
    if |rc| == 0 then []
    else RootCauseFields(rc[..|rc| - 1]) + [AttributeField(rc[|rc| - 1])]
  }

  /** The section block one root cause becomes (line 144). */
  function RootCauseBlock(rc: RootCause): Block
  {
    NewBlock("section", None, Some(RootCauseFields(rc)))
  }

  /**
   * What the block of root cause `rc` must be: a section with no text span,
   * whose field list is present exactly when `rc` has attributes and then
   * holds one attribute field per attribute, in order.
   */
  predicate IsRootCauseBlock(rc: RootCause, b: Block)
  {
    && b.kind == "section"
    && b.text.None?
    && (b.fields.Some? <==> |rc| > 0)
    && (b.fields.Some? ==>
          && |b.fields.value| == |rc|
          && forall j :: 0 <= j < |rc| ==> IsAttributeField(rc[j], b.fields.value[j]))
  }

  /** The outer loop (lines 139-144): one block per root cause, appended in order. */
  function RootCauseBlocks(rcs: seq<RootCause>): (bs: seq<Block>)
    ensures |bs| == |rcs|
    ensures forall i :: 0 <= i < |rcs| ==> IsRootCauseBlock(rcs[i], bs[i])
  {
    if |rcs| == 0 then []
    else RootCauseBlocks(rcs[..|rcs| - 1]) + [RootCauseBlock(rcs[|rcs| - 1])]
  }

  /** The full block list the handler sends. */
  function Message(e: AnomalyEvent): (bs: seq<Block>)
    ensures |bs| == 6 + |e.rootCauses|
    ensures bs[0].kind == "header"
    ensures forall i :: 1 <= i < |bs| ==> bs[i].kind == "section"
    ensures forall i :: 0 <= i < |e.rootCauses| ==> IsRootCauseBlock(e.rootCauses[i], bs[6 + i])
  {
    SummaryBlocks(e) + RootCauseBlocks(e.rootCauses)
  }

  /** Extending the processed prefix of root causes by one appends that root cause's block. */
  lemma RootCauseBlocksStep(rcs: seq<RootCause>, i: nat)
    requires i < |rcs|
    ensures RootCauseBlocks(rcs[..i + 1]) == RootCauseBlocks(rcs[..i]) + [RootCauseBlock(rcs[i])]
  {
    assert rcs[..i + 1][..i] == rcs[..i];
  }

  /** The handler's inner loop (lines 140-143), appending one field per attribute. */
  method BuildFields(rootCause: RootCause) returns (fields: seq<Span>)
    ensures |fields| == |rootCause|
    ensures forall j :: 0 <= j < |rootCause| ==> IsAttributeField(rootCause[j], fields[j])
    ensures fields == RootCauseFields(rootCause)
  {
    fields := [];
    var j := 0;
    while j < |rootCause|
      invariant 0 <= j <= |rootCause|
      invariant fields == RootCauseFields(rootCause[..j])
    {
      fields := fields + [NewField("plain_text", rootCause[j].0 + " : " + rootCause[j].1, false)];
      assert rootCause[..j + 1][..j] == rootCause[..j];
      j := j + 1;
    }
    assert rootCause[..j] == rootCause;
  }

  /**
   * The handler's six opening appends (lines 122-136): a plain-text header
   * with emoji, then the cost, start date, end date, details link and
   * root-causes label as mrkdwn sections without emoji.
   */
  method BuildSummary(e: AnomalyEvent) returns (blocks: seq<Block>)
    ensures |blocks| == 6
    ensures blocks[0].kind == "header" && blocks[0].text.Some? && blocks[0].text.value.emoji == Some(true)
    ensures forall i :: 1 <= i < 6 ==> blocks[i].kind == "section" && blocks[i].text.Some? && blocks[i].text.value.kind == "mrkdwn"
    ensures blocks == SummaryBlocks(e)
  {
    var headerText := NewText("plain_text", HeaderLabel, Some(true));
    var totalAnomalyCostText := NewText("mrkdwn", CostLabel + e.totalImpact, None);
    var rootCausesHeaderText := NewText("mrkdwn", RootCausesLabel, None);
    var anomalyStartDateText := NewText("mrkdwn", StartDateLabel + e.anomalyStartDate, None);
    var anomalyEndDateText := NewText("mrkdwn", EndDateLabel + e.anomalyEndDate, None);
    var anomalyDetailsLinkText := NewText("mrkdwn", DetailsLinkLabel + e.anomalyDetailsLink, None);

    blocks := [];
    blocks := blocks + [NewBlock("header", Some(headerText), None)];
    blocks := blocks + [NewBlock("section", Some(totalAnomalyCostText), None)];
    blocks := blocks + [NewBlock("section", Some(anomalyStartDateText), None)];
    blocks := blocks + [NewBlock("section", Some(anomalyEndDateText), None)];
    blocks := blocks + [NewBlock("section", Some(anomalyDetailsLinkText), None)];
    blocks := blocks + [NewBlock("section", Some(rootCausesHeaderText), None)];
  }

  /**
   * The handler's block list (lines 118-144): the opening blocks, then one
   * section appended per root cause; it is exactly `Message(e)`.
   */
  method BuildMessage(e: AnomalyEvent) returns (blocks: seq<Block>)
    ensures |blocks| == 6 + |e.rootCauses|
    ensures blocks == Message(e)
  {
    blocks := BuildSummary(e);
    ghost var summary := blocks;

    var rootCauses := e.rootCauses;
    var i := 0;
    while i < |rootCauses|
      invariant 0 <= i <= |rootCauses|
      invariant blocks == summary + RootCauseBlocks(rootCauses[..i])
    {
      var fields := BuildFields(rootCauses[i]);
      blocks := blocks + [NewBlock("section", None, Some(fields))];
      RootCauseBlocksStep(rootCauses, i);
      i := i + 1;
    }
    assert rootCauses[..i] == rootCauses;
  }
}
