/**
  The older chat bot at the top of the repository (brewbrat.go). Its message
  routing matches the newer bot's, but its HandleCommand splits the untrimmed
  message, looks only at the second word, answers nothing but the help text,
  and never fails; a reply is wrapped with the channel it came from.
 */
module LegacyBot {
  import opened Values
  import opened Strings
  import opened SlackBot

  /** The words of a message: every space-separated part, lower-cased and
      trimmed. The message itself is not trimmed first. */
  function LegacyWords(message: string): (words: seq<string>)
    ensures |words| == |Split(message, ' ')|
    ensures forall k :: 0 <= k < |words| ==> words[k] == TrimSpace(ToLower(Split(message, ' ')[k]))
    ensures ' ' in message <==> |words| >= 2
  {
    var parts := Split(message, ' ');
    SplitHasSecondPart(message, ' ');
    seq(|parts|, k requires 0 <= k < |parts| => TrimSpace(ToLower(parts[k])))
  }

  /** HandleCommand: the help text exactly when the second word is "help",
      otherwise "", and never an error. Go indexes the second word, so the
      message must contain a space. */
  function LegacyHandleCommand(message: string, help: string): (r: Answer)
    requires ' ' in message
    ensures r.err == Pass
    ensures r.text == (if LegacyWords(message)[1] == "help" then help else "")
  {
    var words := LegacyWords(message);
    if words[1] == "help" then Answer(help, Pass) else Answer("", Pass)
  }

  /** The reply as the older bot formats it: the channel in angle brackets,
      then the response in single quotes, then a newline. */
  function ChannelReply(channel: string, response: string): (s: string)
    ensures |s| == |channel| + |response| + 6
    ensures s[..1] == "<" && s[|s| - 2..] == "'\n"
    ensures s[1..1 + |channel|] == channel
    ensures s[1 + |channel|..4 + |channel|] == "> '"
    ensures s[4 + |channel|..|s| - 2] == response
  {
    "<" + channel + "> '" + response + "'\n"
  }

  /** The formatted reply gives back the channel and the response, so no two
      (channel, response) pairs whose channel holds no '>' look the same. */
  lemma ChannelReplyInjective(c1: string, r1: string, c2: string, r2: string)
    requires '>' !in c1 && '>' !in c2
    requires ChannelReply(c1, r1) == ChannelReply(c2, r2)
    ensures c1 == c2 && r1 == r2
  {
    ChannelEnd(c1, r1);
    ChannelEnd(c2, r2);
  }

  /** The first '>' after the opening bracket closes the channel. */
  lemma ChannelEnd(channel: string, response: string)
    requires '>' !in channel
    ensures IndexOfChar(ChannelReply(channel, response)[1..], '>') == |channel|
  {
    var t := ChannelReply(channel, response)[1..];
    var i := IndexOfChar(t, '>');
    assert t[..|channel|] == channel;
    assert t[|channel|] == '>';
  }

  /** HandleMessageEvent (older): no mention is NotForMe; otherwise the help
      check runs on the text after the first mention, which must contain a
      space, and the answer is wrapped with the channel. The error and
      out-of-range branches cannot be taken. */
  function LegacyHandleMessageEvent(text: string, channel: string, user: string, help: string): (r: Answer)
    requires FindMention(text, BotId(user)).MentionedCommand? ==> ' ' in FindMention(text, BotId(user)).command
    ensures IndexOf(text, BotId(user)) < 0 <==> r == Answer("", Fail(NotForMe.Error()))
    ensures IndexOf(text, BotId(user)) >= 0 ==>
      && r.err == Pass
      && r.text == ChannelReply(channel, LegacyHandleCommand(FindMention(text, BotId(user)).command, help).text)
  {
    match FindMention(text, BotId(user))
    case NoMention => Answer("", Fail(NotForMe.Error()))
    case MentionOutOfRange => Answer("", Fail(IndexOutOfRange.Error()))
    case MentionedCommand(command) =>
      // HandleCommand never fails, so Go's error branch is never taken.
      Answer(ChannelReply(channel, LegacyHandleCommand(command, help).text), Pass)
  }

  /** A message that is only the mention leaves an empty command without a
      second word: Go's HandleCommand panics indexing it, and the
      precondition of LegacyHandleMessageEvent excludes it. */
  lemma BareMentionHasNoSecondWord(user: string)
    ensures FindMention(BotId(user), BotId(user)) == MentionedCommand("")
    ensures |LegacyWords(FindMention(BotId(user), BotId(user)).command)| == 1
  {
    MentionAt("", BotId(user), "");
    assert "" + BotId(user) + "" == BotId(user);
  }

  /** " help" splits into an empty first word and "help". */
  lemma HelpWords()
    ensures LegacyWords(" help") == ["", "help"]
  {
    EmptyWord();
    HelpWordClean();
    HelpSplit();
    var words := LegacyWords(" help");
    assert |words| == 2;
    assert words[0] == TrimSpace(ToLower(""));
    assert words[1] == TrimSpace(ToLower("help"));
    PairIs(words, "", "help");
  }

  lemma PairIs(words: seq<string>, a: string, b: string)
    requires |words| == 2 && words[0] == a && words[1] == b
    ensures words == [a, b]
  {
  }

  lemma EmptyWord()
    ensures ToLower("") == "" && TrimSpace("") == ""
  {
  }

  lemma HelpWordClean()
    ensures TrimSpace(ToLower("help")) == "help"
  {
    var help := "help";
    assert ToLower(help) == help;
    assert !IsSpace(help[0]) && !IsSpace(help[3]);
    TrimSpaceUntouched(help);
  }

  lemma HelpSplit()
    ensures Split(" help", ' ') == ["", "help"]
  {
    var help := "help";
    assert ' ' !in help;
    assert Split(help, ' ') == [help];
    assert " help"[1..] == help;
  }

  /** "@bot help" as a user types it gives the help text, wrapped with the
      channel. */
  lemma MentionThenHelp(prefix: string, user: string, help: string, channel: string)
    requires '<' !in prefix
    ensures FindMention(prefix + BotId(user) + " help", BotId(user)) == MentionedCommand(" help")
    ensures LegacyHandleMessageEvent(prefix + BotId(user) + " help", channel, user, help)
      == Answer(ChannelReply(channel, help), Pass)
  {
    MentionAt(prefix, BotId(user), " help");
    HelpWords();
  }

  /** A space-free start, a space, then a word followed by nothing or by a
      space: the second word is that word lower-cased. */
  lemma LegacySecondWord(first: string, w: string, tail: string)
    requires ' ' !in first && IsWord(w) && (tail == [] || tail[0] == ' ')
    ensures |LegacyWords(first + " " + w + tail)| >= 2
    ensures LegacyWords(first + " " + w + tail)[1] == ToLower(w)
  {
    WordHasNoBlank(w);
    assert first + " " + w + tail == first + [' '] + w + tail;
    SplitSecondPart(first, w, tail, ' ');
    LowerWordTrimmed(w);
  }

  /** "@bot help" in any letter case gives the help text, wrapped with the
      channel. */
  lemma LegacyMentionThenHelpWord(prefix: string, user: string, help: string, channel: string, w: string)
    requires '<' !in prefix && IsWord(w) && ToLower(w) == "help"
    ensures FindMention(prefix + BotId(user) + " " + w, BotId(user)) == MentionedCommand(" " + w)
    ensures LegacyHandleMessageEvent(prefix + BotId(user) + " " + w, channel, user, help)
      == Answer(ChannelReply(channel, help), Pass)
  {
    ConcatAssoc(prefix + BotId(user), " ", w);
    MentionAt(prefix, BotId(user), " " + w);
    LegacyHelpCommand(w, help);
  }

  /** A space and a word that lower-cases to "help" is the help command. */
  lemma LegacyHelpCommand(w: string, help: string)
    requires IsWord(w) && ToLower(w) == "help"
    ensures LegacyHandleCommand(" " + w, help) == Answer(help, Pass)
  {
    assert "" + " " + w + "" == " " + w;
    LegacySecondWord("", w, "");
  }

  /** The first mention in prefix + id + suffix, when the prefix holds no '<'
      and the id starts with one, is the one after the prefix. */
  lemma MentionAt(prefix: string, id: string, suffix: string)
    requires '<' !in prefix && |id| > 0 && id[0] == '<'
    ensures FindMention(prefix + id + suffix, id) == MentionedCommand(suffix)
  {
    var text := prefix + id + suffix;
    assert OccursAt(text, id, |prefix|) by {
      assert text[|prefix|..|prefix| + |id|] == id;
    }
    forall j: nat | j < |prefix|
      ensures !OccursAt(text, id, j)
    {
      assert text[j] == prefix[j] != '<';
    }
    assert text[|prefix| + |id|..] == suffix;
  }
}
