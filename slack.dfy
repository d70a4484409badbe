/** The mention rule of the Slack notifier (event_checker.py,
    send_slack_notification): when a mention is configured, it is rendered in
    Slack's markup, inserted as a section right after the header block, and
    put in front of the plain-text fallback. The rest of the Block Kit payload
    is presentation and is taken as given. */
module Slack {
  import Extraction

  /** A Block Kit block, reduced to its kind and text. */
  datatype Block = Header(text: string) | Section(text: string) | Divider | Context(text: string)

  /** The payload: the plain-text fallback and the blocks. */
  datatype Message = Message(fallback: string, blocks: seq<Block>)

  /** The mentions that address a whole channel or workspace. */
  const BroadcastMentions: seq<string> := ["@channel", "@here", "@everyone"]

  /** A broadcast mention becomes `<!name>`, a user or user-group mention
      (`@U…`, `@W…`) becomes `<@…>`, anything else is shown as it is. */
  function MentionText(mention: string): (r: string)
    ensures |r| >= |mention|
    ensures r != mention ==> r[0] == '<' && r[|r| - 1] == '>'
  {
    if mention in BroadcastMentions then "<!" + mention[1..] + ">"
    else if Extraction.StartsWith(mention, "@U") || Extraction.StartsWith(mention, "@W") then "<" + mention + ">"
    else mention
  }

  /** Python's `list.insert(i, x)` for a non-negative index: past the end it appends. */
  function InsertAt<T>(s: seq<T>, i: nat, x: T): (r: seq<T>)
    ensures |r| == |s| + 1
    ensures var j := if i < |s| then i else |s|;
              r[j] == x && r[..j] == s[..j] && r[j + 1..] == s[j..]
  {
    if i < |s| then s[..i] + [x] + s[i..] else s + [x]
  }

  /** The message with the configured mention applied; an empty mention changes nothing. */
  function WithMention(mention: string, msg: Message): (r: Message)
    ensures mention == "" ==> r == msg
    ensures mention != "" ==> |r.blocks| == |msg.blocks| + 1 && Section(MentionText(mention)) in r.blocks
    ensures mention != "" ==> Extraction.StartsWith(r.fallback, MentionText(mention) + " ")
  {
    if mention == "" then msg
    else
      var text := MentionText(mention);
      Message(text + " " + msg.fallback, InsertAt(msg.blocks, 1, Section(text)))
  }

  /** The three broadcast mentions render as Slack's special mentions. */
  lemma BroadcastRendering()
    ensures MentionText("@channel") == "<!channel>"
    ensures MentionText("@here") == "<!here>"
    ensures MentionText("@everyone") == "<!everyone>"
  {
  }

  /** The rendering keeps a mention verbatim exactly when it is neither a
      broadcast nor a user or user-group mention. */
  lemma MentionKeptIff(mention: string)
    ensures MentionText(mention) == mention <==>
              !(mention in BroadcastMentions || Extraction.StartsWith(mention, "@U") || Extraction.StartsWith(mention, "@W"))
  {
  }

  /** A user or user-group mention is wrapped whole, its `@` kept. */
  lemma UserMentionRendering(mention: string)
    requires Extraction.StartsWith(mention, "@U") || Extraction.StartsWith(mention, "@W")
    ensures MentionText(mention) == "<" + mention + ">"
  {
    assert mention[1] == 'U' || mention[1] == 'W';
    assert mention !in BroadcastMentions;
  }

  /** With a mention, the header stays first, the mention section comes second,
      the other blocks follow in their order, and the fallback is prefixed. */
  lemma MentionPlacement(mention: string, msg: Message)
    requires mention != "" && |msg.blocks| >= 1
    ensures |WithMention(mention, msg).blocks| == |msg.blocks| + 1
    ensures WithMention(mention, msg).blocks[0] == msg.blocks[0]
    ensures WithMention(mention, msg).blocks[1] == Section(MentionText(mention))
    ensures WithMention(mention, msg).blocks[2..] == msg.blocks[1..]
    ensures WithMention(mention, msg).fallback == MentionText(mention) + " " + msg.fallback
  {
  }
}
