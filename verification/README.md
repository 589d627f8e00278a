# Cost-anomaly Slack notifier: message builder model

A Dafny model of the message-shaping core of the AWS cost-anomaly Slack
notifier (`lambda-code/lambda_function.py`). The Lambda handler receives a
cost-anomaly record, turns it into an ordered list of Slack display blocks
and posts them to a webhook. The model covers:

- the attribute-bag classes `Field`, `Text` and `Block`, whose optional
  attributes are stored only when the keyword argument is truthy
  (`SlackObjects`), together with the `__dict__` view of each object that is
  handed to the JSON encoder;
- reading those dictionaries back (`DictParse`), the partner that makes the
  "nothing is lost in the block array" round trip provable;
- the builder itself (`MessageBuilder`): the header block, the cost, start
  date, end date, details-link and "Root Causes" sections, then one
  fields-section per root cause with one `key : value` field per attribute in
  the dictionary's iteration order, both as a pure function (`Message`) and
  as the handler's own nested loops (`BuildMessage`);
- properties relating blocks, dictionaries and records (`MessageProperties`);
- the acknowledgment check that ends the handler (`Handler`).

Modules: `Wrappers` (Option, Result), `SlackObjects`, `DictParse`,
`MessageBuilder`, `MessageProperties`, `Handler`.

Representation choices:

- A root cause is `seq<(string, string)>`: the key order Python's dictionary
  iteration gives, made explicit. `Lookup` and `FieldUsesLookup` tie this to
  `rootCause[key]` indexing when keys are distinct (`DistinctKeys`).
- `Value` (string, boolean, object as `map<string, Value>`, array) is the
  shape of an attribute dictionary; `Truthy` is Python truthiness, used for
  the `kwargs.get(...)` tests exactly where the source makes them.
- The anomaly record is already decoded: a record that lacks a key the
  handler indexes cannot be built, which stands for the handler's
  `KeyError`.

Two consequences of the code worth stating:

- Every root-cause attribute is emitted the same way, so the block count is
  `6 + |rootCauses|` and each root-cause section has one field per key.
- A root cause with no attributes yields a section with neither `text` nor
  `fields`, because `Block` drops an empty field list
  (`EmptyRootCauseSection`).

## Model

| member | source | states |
|---|---|---|
| SlackObjects.NewField | lambda-code/lambda_function.py:59-66 | a field always carries `emoji`, with the value given, even when it is false |
| SlackObjects.NewText | lambda-code/lambda_function.py:79-88 | `emoji` is a member of the text object exactly when the argument is given and true; when present it is true |
| SlackObjects.NewBlock | lambda-code/lambda_function.py:68-77 | `fields` is stored exactly when a non-empty list is given; a given text span is always stored (its dictionary is never empty); the result never holds an empty field list |
| SlackObjects.SpanDict | lambda-code/lambda_function.py:131-136 | a span's dictionary has `type` and `text`, has `emoji` exactly when the attribute was set, and nothing else |
| SlackObjects.BlockDict | lambda-code/lambda_function.py:154 | a block's dictionary has `type`, has `fields` (the list of field dictionaries) and `text` (the span dictionary) exactly when set, and nothing else |
| SlackObjects.BlocksValue | lambda-code/lambda_function.py:154 | the encoded array has one block dictionary per block, in order |
| DictParse.SpanRoundTrip | lambda-code/lambda_function.py:131-136 | reading a span's dictionary back gives the same span |
| DictParse.SpanDictOfParse | lambda-code/lambda_function.py:131-136 | any dictionary that reads as a span is exactly that span's dictionary |
| DictParse.BlockRoundTrip | lambda-code/lambda_function.py:144 | reading a well-formed block's dictionary back gives the same block, optional members included |
| DictParse.ParsedBlockWellFormed | lambda-code/lambda_function.py:74-75 | a dictionary that reads as a block never holds an empty field list |
| DictParse.SpansOfParse | lambda-code/lambda_function.py:144 | any list that reads as spans is exactly the list of those spans' dictionaries |
| DictParse.BlockDictOfParse | lambda-code/lambda_function.py:154 | any dictionary that reads as a block is exactly that block's dictionary |
| DictParse.BlocksOfParse | lambda-code/lambda_function.py:154 | any array that reads as blocks is exactly the encoded array of those blocks |
| DictParse.BlocksRoundTrip | lambda-code/lambda_function.py:154 | the array of block dictionaries reads back as the original blocks |
| MessageBuilder.Lookup | lambda-code/lambda_function.py:143 | `rootCause[key]` is absent exactly when no attribute has that key |
| MessageBuilder.RootCauseFields | lambda-code/lambda_function.py:140-143 | one field per attribute, in iteration order, each a `plain_text` span `key : value` with `emoji` false |
| MessageBuilder.RootCauseBlocks | lambda-code/lambda_function.py:139-144 | one section per root cause, in order; each has no text span, and has a field list exactly when its root cause has attributes |
| MessageBuilder.Message | lambda-code/lambda_function.py:118-144 | the message has exactly 6 + number of root causes blocks; block 0 is the header, every other block is a section; block 6+i is built from root cause i |
| MessageBuilder.BuildSummary | lambda-code/lambda_function.py:122-136 | the six opening appends give a header whose span has emoji true, then five sections with mrkdwn spans, the list `SummaryBlocks` describes |
| MessageBuilder.BuildFields | lambda-code/lambda_function.py:140-143 | the handler's inner append loop yields one `key : value` plain-text field per attribute, in order, the same list `RootCauseFields` describes |
| MessageBuilder.BuildMessage | lambda-code/lambda_function.py:118-144 | the handler's nested append loops produce exactly the message `Message` describes |
| MessageProperties.SummaryBlocksExact | lambda-code/lambda_function.py:122-136 | the first six blocks in order: the emoji header ":warning: Cost Anomaly Detected ", then mrkdwn sections for cost ("*Total Anomaly Cost*: $" + impact), start date, end date, details link, and "*Root Causes* :mag:", none with fields or emoji |
| MessageProperties.NeverTextAndFields | lambda-code/lambda_function.py:70-77 | no block's dictionary holds both `text` and `fields` |
| MessageProperties.EmptyRootCauseSection | lambda-code/lambda_function.py:74-77 | a root cause with no attributes yields a section whose dictionary holds only `type` |
| MessageProperties.EmojiPresence | lambda-code/lambda_function.py:122-143 | the header span has `emoji` true; the five mrkdwn spans have no `emoji` member; every root-cause field has `emoji` false and type `plain_text` |
| MessageProperties.AppendRootCause | lambda-code/lambda_function.py:139-144 | a root cause added at the end of the record adds one block at the end and changes no earlier block |
| MessageProperties.MessageWellFormed | lambda-code/lambda_function.py:118-144 | every block the builder makes is one `Block` can produce |
| MessageProperties.MessageRoundTrip | lambda-code/lambda_function.py:154 | the block array handed to the encoder reads back as the message, nothing lost |
| MessageProperties.FieldUsesLookup | lambda-code/lambda_function.py:141-143 | with distinct keys, as a dictionary has, field j reads `key : rootCause[key]` for the j-th key |
| MessageProperties.ExampleCostLine | lambda-code/lambda_function.py:123 | a cost rendered "123.45" gives the line "*Total Anomaly Cost*: $123.45" |
| MessageProperties.ExampleRootCauseFields | lambda-code/lambda_function.py:139-144 | `{service: EC2, region: us-east-1}` gives the fields "service : EC2", "region : us-east-1", in that order |
| Handler.CheckResponse | lambda-code/lambda_function.py:159-166 | success exactly for status 200 with body "ok", and then the fixed record (200, "Posted to Slack Channel Successfully"); a bad status fails at the first assertion, a bad body with status 200 at the second |
| Handler.Handle | lambda-code/lambda_function.py:152-166 | the handler succeeds exactly when the webhook acknowledges the block array it was sent |

## Left out

- `get_secret` (Secrets Manager client, environment reads, error-code dispatch, base64 decoding) and the JSON parse of the secret: I/O and foreign calls.
- Decoding the SNS envelope (`json.loads` of `Records[0].Sns.Message`): library parsing; the model starts from the decoded record, and a missing key is ruled out by the record's type.
- `json.dumps` of the blocks: library serialisation. The model stops at the array of attribute dictionaries (`BlocksValue`) and proves that array loses nothing.
- The `WebhookClient` construction and the network call: `send` is a parameter of `Handle`.
- The `text=anomalyEvent` fallback payload of the webhook call: only the blocks are passed to `send`.
- `str()` of the numeric total impact: float formatting; the impact arrives as an already-rendered string. `str()` of the date and link strings is the identity.
- `print` logging.
- SlackObjects.SpanDict: attribute dictionaries are maps, so the insertion order of `__dict__` (`type, text, emoji` for spans, `type, fields, text` for blocks), which fixes the member order `json.dumps` writes, is not modelled; it does not change the JSON value.
- SlackObjects.NewText: the `emoji` argument is a boolean, so Python truthiness of other argument types is not modelled.
- MessageBuilder.RootCause: repeated keys, which no dictionary holds, are representable; the builder does not depend on distinctness, and the one property that does (`FieldUsesLookup`) requires `DistinctKeys`.
- Root-cause attribute values are strings; a non-string value, which makes the source's `+` raise, is not representable.
