/**
 * One chat page session (app.py:205-242): the session-owned history, the chatbot it
 * talks to, and the flag that asks the page to clear its input box.
 */
module Chat {
  import opened Strings
  import opened Chatbot

  datatype Speaker = User | Bot

  /** One history entry, Python's `(speaker, text)` tuple. */
  datatype Turn = Turn(speaker: Speaker, content: Value)

  /** Some character of `s` is not whitespace. */
  predicate HasText(s: string) {
    exists i | 0 <= i < |s| :: !IsSpace(s[i])
  }

  /**
   * The guard `user_input and user_input.strip()`: input counts as submitted exactly
   * when it has a character other than whitespace.
   */
  predicate Submitted(userInput: string)
    ensures Submitted(userInput) <==> HasText(userInput)
  {
    StripEmptyIffBlank(userInput);
    userInput != "" && Strip(userInput) != ""
  }

  /**
   * A history made of exchanges: each submitted user turn is followed by the bot turn
   * carrying the reply of `kb` to it.
   */
  ghost predicate Answered(kb: KnowledgeBase, history: seq<Turn>)
    requires WellFormed(kb)
    decreases |history|
  {
    if history == [] then true
    else
      var n := |history|;
      n >= 2 && Answered(kb, history[..n - 2]) &&
      history[n - 2].speaker == User && history[n - 2].content.Message? &&
      HasText(history[n - 2].content.text) &&
      history[n - 1] == Turn(Bot, Reply(kb, history[n - 2].content.text))
  }

  /** Appending one exchange keeps a history answered. */
  lemma AnsweredExtend(kb: KnowledgeBase, history: seq<Turn>, userInput: string)
    requires WellFormed(kb) && Answered(kb, history) && HasText(userInput)
    ensures Answered(kb, history + [Turn(User, Message(userInput)), Turn(Bot, Reply(kb, userInput))])
  {
    var longer := history + [Turn(User, Message(userInput)), Turn(Bot, Reply(kb, userInput))];
    assert longer[..|longer| - 2] == history;
  }

  /** In an answered history the speakers alternate, starting with the user. */
  lemma {:induction false} AnsweredAlternates(kb: KnowledgeBase, history: seq<Turn>)
    requires WellFormed(kb) && Answered(kb, history)
    ensures |history| % 2 == 0
    ensures forall i :: 0 <= i < |history| ==> (history[i].speaker == User <==> i % 2 == 0)
  {
    if history != [] {
      var n := |history|;
      var earlier := history[..n - 2];
      AnsweredAlternates(kb, earlier);
      forall i | 0 <= i < n
        ensures history[i].speaker == User <==> i % 2 == 0
      {
        if i < n - 2 {
          assert history[i] == earlier[i];
        }
      }
    }
  }

  /** The state `show_chat` keeps in `st.session_state`. */
  class ChatSession {
    var chatHistory: seq<Turn>
    var resetInput: bool
    const bot: HealthChatbot

    ghost predicate Valid()
      reads this, bot
    {
      bot.Valid() && Answered(bot.knowledgeBase, chatHistory)
    }

    /** First visit: empty history, a fresh chatbot, no pending reset. */
    constructor ()
      ensures Valid() && fresh(bot)
      ensures bot.knowledgeBase == DefaultKnowledgeBase
      ensures chatHistory == [] && !resetInput
    {
      chatHistory := [];
      bot := new HealthChatbot();
      resetInput := false;
    }

    /**
     * One submission: non-blank input appends the user turn and then the bot's reply,
     * and sets the reset flag; blank input changes nothing. The chatbot is untouched.
     */
    method Submit(userInput: string)
      requires Valid()
      modifies this
      ensures Valid()
      ensures bot.knowledgeBase == old(bot.knowledgeBase)
      ensures Submitted(userInput) ==>
        chatHistory == old(chatHistory) + [Turn(User, Message(userInput)), Turn(Bot, Reply(bot.knowledgeBase, userInput))] &&
        resetInput
      ensures !Submitted(userInput) ==> chatHistory == old(chatHistory) && resetInput == old(resetInput)
    {
      if Submitted(userInput) {
        ghost var before := chatHistory;
        var question := Turn(User, Message(userInput));
        chatHistory := chatHistory + [question];
        var response := bot.Respond(userInput);
        chatHistory := chatHistory + [Turn(Bot, response)];
        resetInput := true;
        assert chatHistory == before + [question, Turn(Bot, response)];
        AnsweredExtend(bot.knowledgeBase, before, userInput);
      }
    }
  }
}
