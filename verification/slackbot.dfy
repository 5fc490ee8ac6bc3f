/**
  The chat bot's message routing (slackbot/brewbrat.go): a message is for the
  bot when it mentions the bot's user id; the text after the first mention is
  split into lower-cased, trimmed words and the first word picks the command.
  The command handlers (the brewing calculator, the ingredient lists) and the
  help text read from a file are parameters.
 */
module SlackBot {
  import opened Values
  import opened Strings

  /** The bot's own error type: a number and a message. */
  datatype Errors = Errors(num: Uint64, message: string)
  {
    /** Errors.Error: the message. */
    function Error(): string { message }
  }

  const NotForMe: Errors := Errors(1, "NotForMe")
  const IndexOutOfRange: Errors := Errors(2, "Index out of range")

  /** How a mention of the bot with the given user id is written. */
  function BotId(user: string): (id: string)
    ensures |id| == |user| + 3 && id[0] == '<'
  {
    "<@" + user + ">"
  }

  /** What a command handler answers: a response text and an error. */
  datatype Answer = Answer(text: string, err: Outcome)

  /** The collaborators HandleCommand calls, each given the words and the
      raw message. */
  datatype Handlers = Handlers(
    help: string,
    calculate: (seq<string>, string) -> Answer,
    list: (seq<string>, string) -> Answer,
    explain: (seq<string>, string) -> Answer)

  datatype Command = HelpCmd | CalcCmd | ListCmd | ExplainCmd | NoCmd

  /** The command a first word selects. */
  function CommandOf(word: string): (c: Command)
    ensures c == HelpCmd <==> word == "help"
    ensures c == CalcCmd <==> word == "calc"
    ensures c == ListCmd <==> word == "list" || word == "ls"
    ensures c == ExplainCmd <==> word == "explain" || word == "ex"
  {
    if word == "help" then HelpCmd
    else if word == "calc" then CalcCmd
    else if word == "list" || word == "ls" then ListCmd
    else if word == "explain" || word == "ex" then ExplainCmd
    else NoCmd
  }

  /** The words of a message: the trimmed message split at every space, each
      part lower-cased and trimmed. */
  function Words(message: string): (words: seq<string>)
    ensures |words| >= 1
    ensures var parts := Split(TrimSpace(message), ' ');
      |words| == |parts| && forall k :: 0 <= k < |parts| ==> words[k] == TrimSpace(ToLower(parts[k]))
  {
    var parts := Split(TrimSpace(message), ' ');
    seq(|parts|, k requires 0 <= k < |parts| => TrimSpace(ToLower(parts[k])))
  }

  /** The first word of white space, then a word, then nothing or a space
      and anything else, is that word lower-cased. */
  lemma FirstWord(s: string, w: string, rest: string)
    requires forall i :: 0 <= i < |s| ==> IsSpace(s[i])
    requires IsWord(w)
    ensures Words(s + w)[0] == ToLower(w)
    ensures Words(s + w + " " + rest)[0] == ToLower(w)
  {
    FirstWordBefore(s + w, s, w, []);
    ConcatAssoc(s + w, " ", rest);
    FirstWordBefore(s + w + " " + rest, s, w, " " + rest);
  }

  /** The first word of a message that is white space, a word, then nothing
      or a space and anything else. */
  lemma FirstWordBefore(message: string, s: string, w: string, tail: string)
    requires forall i :: 0 <= i < |s| ==> IsSpace(s[i])
    requires IsWord(w) && (tail == [] || tail[0] == ' ')
    requires message == s + w + tail
    ensures Words(message)[0] == ToLower(w)
  {
    TrimBeforeWord(s, w, tail);
    var t := TrimSpace(message);
    var after := t[|w|..];
    WordThenRest(t, w);
    WordHasNoBlank(w);
    SplitFirstPart(w, after, ' ');
    LowerWordTrimmed(w);
  }

  /** Every word is lower-case, has no space around it and none inside it. */
  lemma WordsAreClean(message: string)
    ensures forall k :: 0 <= k < |Words(message)| ==>
      && IsLower(Words(message)[k]) && TrimSpace(Words(message)[k]) == Words(message)[k]
      && ' ' !in Words(message)[k]
  {
    var parts := Split(TrimSpace(message), ' ');
    var words := Words(message);
    forall k | 0 <= k < |words|
      ensures IsLower(words[k]) && TrimSpace(words[k]) == words[k] && ' ' !in words[k]
    {
      ToLowerIsLower(parts[k]);
      TrimKeepsLower(ToLower(parts[k]));
      TrimSpaceTrimmed(ToLower(parts[k]));
      TrimKeepsOut(ToLower(parts[k]), ' ');
    }
  }

  /** Lower-casing and trimming a part never brings a space into it. */
  lemma TrimKeepsOut(s: string, c: char)
    requires c !in s
    ensures c !in TrimSpace(s)
  {
    var l := TrimLeft(s);
    var t := TrimRight(l);
    assert forall i :: 0 <= i < |t| ==> t[i] == s[|s| - |l| + i];
  }

  /** HandleCommand: the first word, lower-cased and trimmed, picks the
      handler: "help" answers the help text, "calc" calculates, "list" or
      "ls" lists, "explain" or "ex" explains, and any other first word
      answers "" with no error. */
  function HandleCommand(message: string, h: Handlers): (r: Answer)
    ensures var w := Words(message); w[0] == "help" ==> r == Answer(h.help, Pass)
    ensures var w := Words(message); w[0] == "calc" ==> r == h.calculate(w, message)
    ensures var w := Words(message); w[0] == "list" || w[0] == "ls" ==> r == h.list(w, message)
    ensures var w := Words(message); w[0] == "explain" || w[0] == "ex" ==> r == h.explain(w, message)
    ensures var w := Words(message);
      w[0] !in {"help", "calc", "list", "ls", "explain", "ex"} ==> r == Answer("", Pass)
  {
    var words := Words(message);
    match CommandOf(words[0])
    case HelpCmd => Answer(h.help, Pass)
    case CalcCmd => h.calculate(words, message)
    case ListCmd => h.list(words, message)
    case ExplainCmd => h.explain(words, message)
    case NoCmd => Answer("", Pass)
  }

  /** Two messages with the same first word and no handler involved get the
      same answer, whatever follows the first word. */
  lemma DispatchOnFirstWord(m1: string, m2: string, h: Handlers)
    requires Words(m1)[0] == Words(m2)[0]
    requires CommandOf(Words(m1)[0]) == HelpCmd || CommandOf(Words(m1)[0]) == NoCmd
    ensures HandleCommand(m1, h) == HandleCommand(m2, h)
    ensures CommandOf(Words(m1)[0]) == NoCmd ==> HandleCommand(m1, h) == Answer("", Pass)
  {
  }

  /** A command's answer as the event handler passes it on: an error is
      reported with its message behind a fixed prefix. */
  function Reported(a: Answer): Answer
  {
    if a.err.Fail? then Answer("Cannot handle event text: " + a.err.error, a.err) else Answer(a.text, Pass)
  }

  /** Where the command starts: no mention, a mention running past the end
      of the text, or the text after the first mention. */
  datatype Mention = NoMention | MentionOutOfRange | MentionedCommand(command: string)

  /** The text after the first mention of `id`. A found mention always ends
      inside the text, so the out-of-range case never arises. */
  function FindMention(text: string, id: string): (m: Mention)
    ensures m.NoMention? <==> IndexOf(text, id) < 0
    ensures !m.MentionOutOfRange?
    ensures m.MentionedCommand? ==> m.command == text[IndexOf(text, id) + |id|..]
  {
    var start := IndexOf(text, id);
    if start < 0 then NoMention
    else if start + |id| > |text| then MentionOutOfRange
    else MentionedCommand(text[start + |id|..])
  }

  /** HandleMessageEvent: a text without a mention is NotForMe; otherwise the
      command after the first mention is handled and its answer reported. */
  function HandleMessageEvent(text: string, user: string, h: Handlers): (r: Answer)
    ensures IndexOf(text, BotId(user)) < 0 ==> r == Answer("", Fail(NotForMe.Error()))
    ensures IndexOf(text, BotId(user)) >= 0 ==>
      r == Reported(HandleCommand(FindMention(text, BotId(user)).command, h))
  {
    match FindMention(text, BotId(user))
    case NoMention => Answer("", Fail(NotForMe.Error()))
    case MentionOutOfRange => Answer("", Fail(IndexOutOfRange.Error()))
    case MentionedCommand(command) => Reported(HandleCommand(command, h))
  }

  /** A message of the form prefix, mention, command, where the prefix holds
      no '<', is routed with exactly that command. */
  lemma MentionSelectsCommand(prefix: string, user: string, command: string, h: Handlers)
    requires '<' !in prefix
    ensures HandleMessageEvent(prefix + BotId(user) + command, user, h) == Reported(HandleCommand(command, h))
  {
    var id := BotId(user);
    var text := prefix + id + command;
    assert OccursAt(text, id, |prefix|) by {
      assert text[|prefix|..|prefix| + |id|] == id;
    }
    forall j: nat | j < |prefix|
      ensures !OccursAt(text, id, j)
    {
      assert text[j] == prefix[j] != '<';
    }
    assert IndexOf(text, id) == |prefix|;
    assert text[|prefix| + |id|..] == command;
  }

  /** A message the bot posts, and the channel it goes to. */
  datatype Outgoing = Outgoing(message: string, channel: string)

  /** What the event loop does with a message event: errors whose text is
      "NotForMe" are dropped, other errors are reported, answers are sent to
      the event's channel. */
  function React(text: string, channel: string, user: string, h: Handlers): (r: Option<Outgoing>)
    ensures IndexOf(text, BotId(user)) < 0 ==> r == None
    ensures var a := HandleMessageEvent(text, user, h);
      && (a.err == Pass ==> r == Some(Outgoing(a.text, channel)))
      && (a.err == Fail("NotForMe") ==> r == None)
      && (a.err.Fail? && a.err.error != "NotForMe" ==>
            r == Some(Outgoing("Error parsing message Event: " + a.err.error, channel)))
    ensures r.Some? ==> r.value.channel == channel
  {
    var a := HandleMessageEvent(text, user, h);
    if a.err.Fail? then
      if a.err.error == NotForMe.Error() then None
      else Some(Outgoing("Error parsing message Event: " + a.err.error, channel))
    else Some(Outgoing(a.text, channel))
  }

  /** End to end: a message that mentions the bot after a '<'-free prefix
      posts the command's answer to the event's channel, or its error behind
      the event-loop prefix; a handler error that reads "NotForMe" is
      dropped like a message without the mention. */
  lemma ReactToMention(prefix: string, channel: string, user: string, command: string, h: Handlers)
    requires '<' !in prefix
    ensures var a := HandleCommand(command, h);
      React(prefix + BotId(user) + command, channel, user, h)
        == if a.err == Pass then Some(Outgoing(a.text, channel))
           else if a.err.error == "NotForMe" then None
           else Some(Outgoing("Error parsing message Event: " + a.err.error, channel))
  {
    MentionSelectsCommand(prefix, user, command, h);
  }

  /** "@bot help", written in any letter case after a prefix without '<',
      posts the help text to the event's channel. */
  lemma MentionThenHelpWord(prefix: string, channel: string, user: string, w: string, h: Handlers)
    requires '<' !in prefix && IsWord(w) && ToLower(w) == "help"
    ensures React(prefix + BotId(user) + " " + w, channel, user, h) == Some(Outgoing(h.help, channel))
  {
    assert prefix + BotId(user) + " " + w == prefix + BotId(user) + (" " + w);
    ReactToMention(prefix, channel, user, " " + w, h);
    HelpCommand(w, h);
  }

  /** A space and a word that lower-cases to "help" is the help command. */
  lemma HelpCommand(w: string, h: Handlers)
    requires IsWord(w) && ToLower(w) == "help"
    ensures HandleCommand(" " + w, h) == Answer(h.help, Pass)
  {
    assert forall i :: 0 <= i < |" "| ==> IsSpace(" "[i]);
    FirstWord(" ", w, "");
  }

  /** Both "help" and "HELP" after the mention reach the help text. */
  lemma HelpInEitherCase(prefix: string, channel: string, user: string, h: Handlers)
    requires '<' !in prefix
    ensures React(prefix + BotId(user) + " help", channel, user, h) == Some(Outgoing(h.help, channel))
    ensures React(prefix + BotId(user) + " HELP", channel, user, h) == Some(Outgoing(h.help, channel))
  {
    assert prefix + BotId(user) + " help" == prefix + BotId(user) + " " + "help";
    assert prefix + BotId(user) + " HELP" == prefix + BotId(user) + " " + "HELP";
    assert IsWord("help") && ToLower("help") == "help";
    assert IsWord("HELP") && ToLower("HELP") == "help";
    MentionThenHelpWord(prefix, channel, user, "help", h);
    MentionThenHelpWord(prefix, channel, user, "HELP", h);
  }
}
