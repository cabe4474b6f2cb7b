/** The assistant chat widget: sending a message (trimmed, appended, with
    one-shot detection of the visitor's role), the greeting fetched when the
    window first opens, and the unread dot. */
module Chatbot {
  import opened Wrappers
  import opened Text

  datatype Sender = User | Bot

  /** A bot message carries `data.reply`, which may be missing. */
  datatype Message = Message(sender: Sender, text: Option<string>)

  datatype Role = Student | Recruiter

  /** The body of a chat request. */
  datatype ChatRequest = ChatRequest(message: string, role: Option<Role>)

  /** The role sent with a message: a role already known is kept; otherwise
      a message mentioning "recruiter" (in any case) makes the visitor a
      recruiter, else one mentioning "student" a student, else none. */
  function DetectRole(current: Option<Role>, message: string): (r: Option<Role>)
    ensures current.Some? ==> r == current
    ensures current.None? ==>
              && (r == Some(Recruiter) <==> Contains(Lower(message), "recruiter"))
              && (r == Some(Student) <==> !Contains(Lower(message), "recruiter") && Contains(Lower(message), "student"))
  {
    if current.Some? then current
    else
      var lower := Lower(message);
      var detected := if Contains(lower, "student") then Some(Student) else None;
      if Contains(lower, "recruiter") then Some(Recruiter) else detected
  }

  /** A role, once detected, stays whatever the later messages say. */
  lemma {:induction false} RoleIsSticky(current: Option<Role>, messages: seq<string>)
    requires current.Some?
    ensures RoleAfter(current, messages) == current
    decreases |messages|
  {
    if messages != [] {
      RoleIsSticky(DetectRole(current, messages[0]), messages[1..]);
    }
  }

  /** The role after a run of messages. */
  function RoleAfter(current: Option<Role>, messages: seq<string>): Option<Role>
    decreases |messages|
  {
    if messages == [] then current else RoleAfter(DetectRole(current, messages[0]), messages[1..])
  }

  class Chat {
    var messages: seq<Message>
    var input: string
    var open: bool
    var unread: bool
    var role: Option<Role>
    var initialized: bool

    constructor ()
      ensures messages == [] && input == "" && !open && !unread && role.None? && !initialized
    {
      messages := [];
      input := "";
      open := false;
      unread := false;
      role := None;
      initialized := false;
    }

    /** The unread effect, run whenever `messages` or `open` change: a
        closed window with messages shows the dot. */
    method UnreadEffect()
      modifies this`unread
      ensures unread == (old(unread) || (!open && |messages| > 0))
    {
      if !open && |messages| > 0 {
        unread := true;
      }
    }

    /** `sendMessage`, with `reply` the server's answer: `None` when the
        request fails (no bot message then), `Some(r)` for `data.reply`.
        It returns the request it sends, if any. */
    method SendMessage(reply: Option<Option<string>>) returns (request: Option<ChatRequest>)
      modifies this`messages, this`input, this`role, this`unread
      ensures AllSpace(old(input)) ==>
                request.None? && messages == old(messages) && input == old(input)
                && role == old(role) && unread == old(unread)
      ensures !AllSpace(old(input)) ==>
                var text := Trim(old(input));
                && text != [] && input == ""
                && request == Some(ChatRequest(text, DetectRole(old(role), text)))
                && role == DetectRole(old(role), text)
                && messages == old(messages) + [Message(User, Some(text))]
                               + (if reply.Some? then [Message(Bot, reply.value)] else [])
                && unread == (old(unread) || !open)
      ensures old(role).Some? ==> role == old(role)
    {
      TrimEmptyIff(input);
      if Trim(input) == [] {
        return None;
      }
      var text := Trim(input);
      input := "";
      messages := messages + [Message(User, Some(text))];
      UnreadEffect();
      var detected := DetectRole(role, text);
      if role.None? && detected.Some? {
        role := detected;
      }
      request := Some(ChatRequest(text, detected));
      if reply.Some? {
        messages := messages + [Message(Bot, reply.value)];
        UnreadEffect();
      }
    }

    /** The greeting effect, with `reply` the server's answer (`None` when
        the request fails): only while open and not yet initialised, it
        replaces the conversation with the single greeting. */
    method Greet(reply: Option<Option<string>>)
      modifies this`messages, this`initialized
      ensures open && !old(initialized) && reply.Some? ==>
                messages == [Message(Bot, reply.value)] && initialized
      ensures !(open && !old(initialized) && reply.Some?) ==>
                messages == old(messages) && initialized == old(initialized)
    {
      if open && !initialized && reply.Some? {
        messages := [Message(Bot, reply.value)];
        initialized := true;
      }
    }

    /** A click on the closed chat button opens the window and clears the
        dot. */
    method OpenWindow()
      requires !open
      modifies this`open, this`unread
      ensures open && !unread
    {
      open := true;
      unread := false;
      UnreadEffect();
    }

    /** The close button; the dot appears if there are messages. */
    method CloseWindow()
      modifies this`open, this`unread
      ensures !open && unread == (old(unread) || |messages| > 0)
    {
      open := false;
      UnreadEffect();
    }
  }

  /** Greeted and closed, the widget shows the dot; reopening clears it. */
  method GreetCloseReopenScenario(greeting: string) returns (c: Chat)
    ensures c.open && !c.unread && c.initialized && c.messages == [Message(Bot, Some(greeting))]
  {
    c := new Chat();
    c.OpenWindow();
    c.Greet(Some(Some(greeting)));
    c.CloseWindow();
    assert c.unread;
    c.OpenWindow();
    c.Greet(Some(Some("again")));
  }
}
