/** The messages and request bodies exchanged between the pages and the backend. */
module Wire {
  import opened Wrappers

  /**
   * A chat message as the backend receives it: a string-to-string dict, in
   * which either key may be missing.
   */
  datatype Message = Message(role: Option<string>, content: Option<string>)

  /** A message with both keys present. */
  function Msg(role: string, content: string): Message {
    Message(Some(role), Some(content))
  }

  /** `msg.get("role", "")` and `msg.get("content", "")`. */
  function RoleOf(m: Message): string {
    m.role.GetOr("")
  }

  function ContentOf(m: Message): string {
    m.content.GetOr("")
  }

  /** The fields of the backend's `ChatRequest` body; the pages fill in a subset. */
  datatype ChatRequest = ChatRequest(
    prompt: Option<string>,
    systemPrompt: Option<string>,
    messages: Option<seq<Message>>,
    temperature: Option<real>,
    maxTokens: Option<int>)

  /** Python and JavaScript truthiness of an optional string: present and non-empty. */
  predicate Truthy(s: Option<string>) {
    s.Some? && s.value != ""
  }

  /** Truthiness of an optional list: present and non-empty. */
  predicate NonEmpty<T>(s: Option<seq<T>>) {
    s.Some? && |s.value| > 0
  }
}
