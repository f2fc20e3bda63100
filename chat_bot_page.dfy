/**
 * The chat page: the message list shown to the user, the input box, and
 * the loading and error indicators. A request's outcome is a parameter:
 * `None` when the request failed, otherwise what the server answered.
 */
module ChatBotPage {
  import opened Options
  import opened Strings
  import opened ChatModel

  const SendFailed := "Failed to send query. Please try again."
  const LoadFailed := "Failed to load chat history."

  class ChatView {
    var messages: seq<ChatMessage>
    var input: string
    var loading: bool
    var error: string
    /** The questions posted to the server, oldest first. */
    var sent: seq<string>

    constructor ()
      ensures messages == [] && input == "" && !loading && error == "" && sent == []
    {
      messages := [];
      input := "";
      loading := false;
      error := "";
      sent := [];
    }

    /**
     * `fetchMessages`: the server's list, or `[]` when the response has
     * none; `response` is `None` when the request failed.
     */
    method FetchMessages(response: Option<Option<seq<ChatMessage>>>)
      modifies this
      ensures response.None? ==> messages == old(messages) && error == LoadFailed
      ensures response.Some? ==>
        error == old(error) && messages == (if response.value.Some? then response.value.value else [])
      ensures input == old(input) && loading == old(loading) && sent == old(sent)
    {
      if response.None? {
        error := LoadFailed;
      } else {
        messages := if response.value.Some? then response.value.value else [];
      }
    }

    /**
     * The state after `handleSend` ran on the state given by the `0`
     * arguments: a blank input sends nothing and changes nothing; otherwise
     * the input is posted and the loader is off again, and on success the
     * exchange is appended to the last 30 messages and the input cleared,
     * while on failure only the error is set.
     */
    ghost predicate Handled(messages0: seq<ChatMessage>, input0: string, loading0: bool, error0: string,
                            sent0: seq<string>, answer: Option<string>)
      reads this
    {
      && (AllSpace(input0) ==>
        messages == messages0 && input == input0 && loading == loading0 && error == error0 && sent == sent0)
      && (!AllSpace(input0) ==> !loading && sent == sent0 + [input0])
      && (!AllSpace(input0) && answer.Some? ==>
        messages == LastN(messages0 + [ChatMessage(input0, answer.value)], MaxMessages) && input == "" && error == "")
      && (!AllSpace(input0) && answer.None? ==>
        messages == messages0 && input == input0 && error == SendFailed)
    }

    /** `handleSend`; `answer` is the server's answer, `None` when the request failed. */
    method HandleSend(answer: Option<string>)
      modifies this
      ensures Handled(old(messages), old(input), old(loading), old(error), old(sent), answer)
    {
      // `!input.trim()`: `Trim` gives "" exactly on an all-space input.
      if AllSpace(input) {
        return;
      }
      loading := true;
      error := "";
      sent := sent + [input];
      if answer.Some? {
        var newMessage := ChatMessage(input, answer.value);
        messages := LastN(messages + [newMessage], MaxMessages);
        input := "";
      } else {
        error := SendFailed;
      }
      loading := false;
    }

    /** `handleKeyDown`: Enter without Shift sends exactly as `handleSend` does; every other key does nothing here. */
    method HandleKeyDown(key: string, shiftKey: bool, answer: Option<string>)
      modifies this
      ensures key != "Enter" || shiftKey ==>
        messages == old(messages) && input == old(input) && loading == old(loading)
        && error == old(error) && sent == old(sent)
      ensures key == "Enter" && !shiftKey ==>
        Handled(old(messages), old(input), old(loading), old(error), old(sent), answer)
    {
      if key == "Enter" && !shiftKey {
        HandleSend(answer);
      }
    }
  }
}
