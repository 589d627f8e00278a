/**
 * Properties of the built message that relate several blocks, the attribute
 * dictionaries, or several anomaly records.
 */
module MessageProperties {
  import opened Wrappers
  import opened SlackObjects
  import opened DictParse
  import opened MessageBuilder

  /** The six opening blocks, spelled out: fixed labels, and the record's strings appended. */
  lemma SummaryBlocksExact(e: AnomalyEvent)
    ensures Message(e)[0] ==
      Block("header", Some(Span("plain_text", ":warning: Cost Anomaly Detected ", Some(true))), None)
    ensures Message(e)[1] ==
      Block("section", Some(Span("mrkdwn", "*Total Anomaly Cost*: $" + e.totalImpact, None)), None)
    ensures Message(e)[2] ==
      Block("section", Some(Span("mrkdwn", "*Anomaly Start Date*: " + e.anomalyStartDate, None)), None)
    ensures Message(e)[3] ==
      Block("section", Some(Span("mrkdwn", "*Anomaly End Date*: " + e.anomalyEndDate, None)), None)
    ensures Message(e)[4] ==
      Block("section", Some(Span("mrkdwn", "*Anomaly Details Link*: " + e.anomalyDetailsLink, None)), None)
    ensures Message(e)[5] ==
      Block("section", Some(Span("mrkdwn", "*Root Causes* :mag:", None)), None)
  {
  }

  /** No block carries both a text span and a field list. */
  lemma NeverTextAndFields(e: AnomalyEvent)
    ensures forall i :: 0 <= i < |Message(e)| ==>
      !("text" in BlockDict(Message(e)[i]) && "fields" in BlockDict(Message(e)[i]))
  {
  }

  /**
   * A root cause with no attributes yields a section whose dictionary holds
   * only its `type`: neither `text` nor `fields` is set.
   */
  lemma EmptyRootCauseSection(e: AnomalyEvent, i: nat)
    requires i < |e.rootCauses| && e.rootCauses[i] == []
    ensures BlockDict(Message(e)[6 + i]) == map["type" := Str("section")]
  {
  }

  /**
   * `emoji` is a member of the header span (and true), of no mrkdwn span, and
   * of every root-cause field (and false).
   */
  lemma EmojiPresence(e: AnomalyEvent)
    ensures var h := SpanDict(Message(e)[0].text.value);
      "emoji" in h && h["emoji"] == Bool(true)
    ensures forall i :: 1 <= i < 6 ==>
      Message(e)[i].text.Some? && "emoji" !in SpanDict(Message(e)[i].text.value)
    ensures var m := Message(e);
      forall i, j :: 0 <= i < |m| && m[i].fields.Some? && 0 <= j < |m[i].fields.value| ==>
        var f := SpanDict(m[i].fields.value[j]);
        "emoji" in f && f["emoji"] == Bool(false) && f["type"] == Str("plain_text")
  {
  }

  /**
   * One more root cause at the end of the record adds exactly one block at
   * the end of the message and leaves every earlier block as it was.
   */
  lemma AppendRootCause(e: AnomalyEvent, rc: RootCause)
    ensures var m := Message(e.(rootCauses := e.rootCauses + [rc]));
      && m[..|Message(e)|] == Message(e)
      && |m| == |Message(e)| + 1
      && IsRootCauseBlock(rc, m[|m| - 1])
  {
  }

  /** Every block of a message is one `NewBlock` can produce. */
  lemma MessageWellFormed(e: AnomalyEvent)
    ensures forall i :: 0 <= i < |Message(e)| ==> WellFormed(Message(e)[i])
  {
  }

  /**
   * The block array handed to the JSON encoder loses nothing: read back, it
   * gives the same blocks, members present and absent alike.
   */
  lemma MessageRoundTrip(e: AnomalyEvent)
    ensures ParseBlocks(BlocksValue(Message(e)).items) == Some(Message(e))
  {
    MessageWellFormed(e);
    BlocksRoundTrip(Message(e));
  }

  /**
   * Reading the value through the dictionary (`rootCause[key]`) gives the
   * value paired with that key, so each field is `key : rootCause[key]`;
   * this rests on the keys being distinct.
   */
  lemma {:induction false} FieldUsesLookup(rc: RootCause, j: nat)
    requires DistinctKeys(rc) && j < |rc|
    ensures Lookup(rc, rc[j].0) == Some(rc[j].1)
    ensures RootCauseFields(rc)[j].text == rc[j].0 + " : " + Lookup(rc, rc[j].0).value
  {
    if j > 0 {
      assert rc[0].0 != rc[j].0;
      assert DistinctKeys(rc[1..]) by {
        forall a, b | 0 <= a < b < |rc[1..]|
          ensures rc[1..][a].0 != rc[1..][b].0
        {
          assert rc[1..][a] == rc[a + 1] && rc[1..][b] == rc[b + 1];
        }
      }
      FieldUsesLookup(rc[1..], j - 1);
      assert rc[1..][j - 1] == rc[j];
    }
  }

  /** Worked example: a cost rendered as 123.45. */
  lemma ExampleCostLine(e: AnomalyEvent)
    requires e.totalImpact == "123.45"
    ensures Message(e)[1].text.value.text == "*Total Anomaly Cost*: $123.45"
  {
  }

  /** Worked example: a root cause with two attributes gives two fields, in order. */
  lemma ExampleRootCauseFields()
    ensures RootCauseFields([("service", "EC2"), ("region", "us-east-1")]) ==
      [ Span("plain_text", "service : EC2", Some(false)),
        Span("plain_text", "region : us-east-1", Some(false)) ]
  {
    var rc := [("service", "EC2"), ("region", "us-east-1")];
    var fs := RootCauseFields(rc);
    assert fs[0] == Span("plain_text", "service : EC2", Some(false)) by {
      assert IsAttributeField(rc[0], fs[0]);
      assert "service" + " : " + "EC2" == "service : EC2";
    }
    assert fs[1] == Span("plain_text", "region : us-east-1", Some(false)) by {
      assert IsAttributeField(rc[1], fs[1]);
      assert "region" + " : " + "us-east-1" == "region : us-east-1";
    }
    assert fs == [fs[0], fs[1]];
  }
}
