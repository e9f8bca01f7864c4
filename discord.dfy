/**
 * The interaction records of the chat platform, as serde decodes them, and the lookup of the
 * message a context-menu command was invoked on.
 */
module Discord {
  import opened Wrappers
  import opened Primitives

  datatype Message = Message(content: string)

  /** `messages` is a hash map keyed by message id; its iteration order is unspecified. */
  datatype ResolvedData = ResolvedData(messages: map<string, Message>)

  datatype InteractionData = InteractionData(id: string, commandType: i32, name: string, resolved: Option<ResolvedData>)

  datatype InteractionObject = InteractionObject(id: string, applicationId: string, interactionType: i32, data: Option<InteractionData>)

  /**
   * `InteractionData::get_content`: the content of the first message the hash map yields.
   * Which message comes first is not specified, so the result is the content of SOME resolved
   * message. Records are values, so the lookup cannot change `d`.
   */
  ghost function GetContent(d: InteractionData): (r: Option<string>)
    ensures r.None? <==> d.resolved.None? || d.resolved.value.messages == map[]
    ensures r.Some? ==> exists k :: k in d.resolved.value.messages && d.resolved.value.messages[k].content == r.value
  {
    match d.resolved
    case None => None
    case Some(res) =>
      if res.messages == map[] then None
      else
        assert exists k :: k in res.messages by {
          var k' :| k' in res.messages.Keys;
        }
        var k :| k in res.messages;
        Some(res.messages[k].content)
  }

  /** With exactly one resolved message, the lookup yields that message's content. */
  lemma GetContentSingle(d: InteractionData, id: string)
    requires d.resolved.Some? && |d.resolved.value.messages| == 1 && id in d.resolved.value.messages
    ensures GetContent(d) == Some(d.resolved.value.messages[id].content)
  {
    var m := d.resolved.value.messages;
    assert m != map[];
    var k :| k in m && m[k].content == GetContent(d).value;
    SingleKey(m, id, k);
  }

  lemma SingleKey<K, V>(m: map<K, V>, a: K, b: K)
    requires |m| == 1 && a in m && b in m
    ensures a == b
  {
    var rest := m.Keys - {a};
    assert |rest| == |m.Keys| - 1 == 0;
    assert b !in rest;
  }
}
