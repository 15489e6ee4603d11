/** The inbound payload shapes of the Telegram Bot API as the SDK declares
    them, and the two helpers defined on `Message`: `HasCommand`, which tells
    whether the message carries a given bot command, and `CreateReply`, which
    builds the request that answers the message. */
module Telegram {
  import opened Common

  /** A UTF-16 code unit, the element of a .NET string. Telegram counts
      entity offsets and lengths in these units too, so a character outside
      the Basic Multilingual Plane (an emoji, say) takes two of them. */
  newtype CodeUnit = x: int | 0 <= x < 0x1_0000

  /** A .NET string's contents, indexed as `String.Substring` indexes them. */
  type Utf16 = seq<CodeUnit>

  /** The longest string .NET can allocate; every `Text` is shorter. */
  const MaxStringLength: int := 0x3FFF_FFDF

  type NetString = s: Utf16 | |s| <= MaxStringLength

  datatype From = From(id: Int32, isBot: bool, firstName: Option<string>, lastName: Option<string>)

  datatype Chat = Chat(id: Int32, title: Option<string>, chatType: Option<string>,
                       allMembersAreAdministrators: bool)

  datatype MessageEntityType =
    | Mention | Hashtag | Cashtag | BotCommand | Url | Email | PhoneNumber
    | Bold | Italic | Code | Pre | TextLink | TextMention

  datatype MessageEntity = MessageEntity(offset: Int32, length: Int32, entityType: MessageEntityType)

  /** Nullable members are `Option`s; `Entities` is the list the constructor
      creates, in the order the payload lists them. */
  datatype Message = Message(
    messageId: Int32,
    replyToMessage: Option<Message>,
    from: Option<From>,
    chat: Option<Chat>,
    date: Int32,
    text: Option<NetString>,
    entities: seq<MessageEntity>)

  datatype CallbackQuery = CallbackQuery(
    id: Option<string>,
    from: Option<From>,
    message: Option<Message>,
    inlineMessageId: Option<string>,
    data: Option<string>)

  datatype Update = Update(
    updateId: Int32,
    message: Option<Message>,
    editedMessage: Option<Message>,
    callbackQuery: Option<CallbackQuery>)

  datatype ParseMode = Markdown | Html

  /** The two concrete keyboards; their buttons are not modelled. */
  datatype ReplyMarkup = ReplyKeyboardMarkup | InlineKeyboardMarkup

  datatype SendMessageRequest = SendMessageRequest(
    chatId: Int32,
    text: Option<Utf16>,
    parseMode: Option<ParseMode>,
    disableWebPagePreview: Option<bool>,
    disableNotification: Option<bool>,
    replyToMessageId: Option<Int32>,
    replyMarkup: Option<ReplyMarkup>)

  /** `new Message()`: every member at its default, `Entities` an empty list. */
  function NewMessage(): (m: Message)
    ensures m.entities == [] && m.text == None && m.chat == None
  {
    Message(0, None, None, None, 0, None, [])
  }

  // ---------------------------------------------------------------------
  // String primitives used by HasCommand
  // ---------------------------------------------------------------------

  /** `Char.IsWhiteSpace`: the members of the Unicode categories Zs, Zl and
      Zp together with U+0009..U+000D, U+0085 and U+00A0. All of them lie in
      the Basic Multilingual Plane, so each is one code unit. */
  predicate IsWhiteSpace(c: CodeUnit) {
    || (0x0009 <= c <= 0x000D)
    || c == 0x0020 || c == 0x0085 || c == 0x00A0 || c == 0x1680
    || (0x2000 <= c <= 0x200A)
    || c == 0x2028 || c == 0x2029 || c == 0x202F || c == 0x205F || c == 0x3000
  }

  /** `String.IsNullOrWhiteSpace`. */
  predicate IsNullOrWhiteSpace(s: Option<Utf16>) {
    s.None? || forall i :: 0 <= i < |s.value| ==> IsWhiteSpace(s.value[i])
  }

  /** An ASCII capital letter, 'A' to 'Z'. */
  predicate IsAsciiUpper(c: CodeUnit) {
    0x41 <= c <= 0x5A
  }

  /** `Char.ToLowerInvariant`, on the ASCII letters. */
  function LowerChar(c: CodeUnit): CodeUnit {
    if IsAsciiUpper(c) then c + 0x20 else c
  }

  /** `String.ToLowerInvariant`: the same number of code units; exactly the
      capital letters change, each to its small letter, so no capital is
      left. */
  function ToLowerInvariant(s: Utf16): (r: Utf16)
    ensures |r| == |s|
    ensures forall i :: 0 <= i < |s| ==> (r[i] != s[i] <==> IsAsciiUpper(s[i]))
    ensures forall i :: 0 <= i < |s| && IsAsciiUpper(s[i]) ==> r[i] == s[i] + 0x20
    ensures forall i :: 0 <= i < |r| ==> !IsAsciiUpper(r[i])
  {
    seq(|s|, i requires 0 <= i < |s| => LowerChar(s[i]))
  }

  /** Lowering a lowered string changes nothing. */
  lemma ToLowerInvariantIdempotent(s: Utf16)
    ensures ToLowerInvariant(ToLowerInvariant(s)) == ToLowerInvariant(s)
  {
  }

  /** `String.Substring(startIndex, length)`: it throws unless the range lies
      inside the string. */
  function Substring(s: Utf16, startIndex: Int32, length: Int32): Result<Utf16> {
    if 0 <= startIndex && 0 <= length && startIndex + length <= |s| then
      Success(s[startIndex..startIndex + length])
    else
      Failure(ArgumentOutOfRange)
  }

  // ---------------------------------------------------------------------
  // HasCommand
  // ---------------------------------------------------------------------

  /** The entity lies inside the text: `Offset + 1` is a valid start and
      `Length - 1` a valid length of the slice after the leading '/'. */
  predicate InRange(text: Utf16, e: MessageEntity) {
    -1 <= e.offset && 1 <= e.length && e.offset + e.length <= |text|
  }

  /** The command name an in-range bot-command entity spells, without its '/'. */
  function CommandText(text: Utf16, e: MessageEntity): Utf16
    requires InRange(text, e)
  {
    text[e.offset + 1 .. e.offset + e.length]
  }

  /** The predicate `HasCommand` hands to `Any`, for one entity: entities of
      other types are rejected before the text is touched (the `&&`
      short-circuits); a bot command reads `Text.Substring(Offset + 1,
      Length - 1)` with C#'s wrapping `int` arithmetic and compares it,
      lowered, with the lowered command name. */
  function CommandMatch(text: Option<NetString>, e: MessageEntity, lowered: Utf16): (r: Result<bool>)
    ensures e.entityType != BotCommand ==> r == Success(false)
    ensures e.entityType == BotCommand && text.None? ==> r == Failure(NullReference)
    ensures e.entityType == BotCommand && text.Some? ==>
              (r.Success? <==> InRange(text.value, e))
              && (r.Failure? ==> r.error == ArgumentOutOfRange)
              && (r.Success? ==> r.value == (ToLowerInvariant(CommandText(text.value, e)) == lowered))
  {
    if e.entityType != BotCommand then Success(false)
    else if text.None? then Failure(NullReference)
    else
      match Substring(text.value, Wrap32(e.offset + 1), Wrap32(e.length - 1))
      case Failure(err) => Failure(err)
      case Success(name) => Success(ToLowerInvariant(name) == lowered)
  }

  /** `Enumerable.Any` over the entities, in order: the first entity whose
      test is true or throws decides the result. */
  function AnyCommand(text: Option<NetString>, entities: seq<MessageEntity>, lowered: Utf16): (r: Result<bool>)
    ensures r.Failure? ==> r.error == ArgumentOutOfRange || r.error == NullReference
    ensures r.Failure? ==> exists i :: 0 <= i < |entities| && entities[i].entityType == BotCommand
  {
    if entities == [] then Success(false)
    else
      match CommandMatch(text, entities[0], lowered)
      case Failure(err) => Failure(err)
      case Success(found) =>
        if found then Success(true)
        else
          var rest := AnyCommand(text, entities[1..], lowered);
          assert rest.Failure? ==> exists i :: 1 <= i < |entities| && entities[i] == entities[1..][i - 1]
                                               && entities[i].entityType == BotCommand;
          rest
  }

  /** `Message.HasCommand(commandName)`. */
  function HasCommand(m: Message, commandName: Option<Utf16>): (r: Result<bool>)
    ensures r == Failure(ArgumentNull) <==> IsNullOrWhiteSpace(commandName)
    ensures !IsNullOrWhiteSpace(commandName) && m.entities == [] ==> r == Success(false)
  {
    if IsNullOrWhiteSpace(commandName) then Failure(ArgumentNull)
    else AnyCommand(m.text, m.entities, ToLowerInvariant(commandName.value))
  }

  /** No entity before index `i` decides `Any`: each one's test returns false. */
  ghost predicate NoMatchBefore(text: Option<NetString>, entities: seq<MessageEntity>, lowered: Utf16, i: nat)
    requires i <= |entities|
  {
    forall j :: 0 <= j < i ==> CommandMatch(text, entities[j], lowered) == Success(false)
  }

  /** `Any` is decided by the first entity whose test does not return false:
      it is false exactly when no entity decides, and otherwise it is that
      entity's verdict, true or the exception. */
  lemma {:induction false} AnyCommandIsFirstDecision(text: Option<NetString>, entities: seq<MessageEntity>, lowered: Utf16)
    ensures AnyCommand(text, entities, lowered) == Success(false) <==> NoMatchBefore(text, entities, lowered, |entities|)
    ensures forall i :: 0 <= i < |entities| && NoMatchBefore(text, entities, lowered, i)
                        && CommandMatch(text, entities[i], lowered) != Success(false)
                        ==> AnyCommand(text, entities, lowered) == CommandMatch(text, entities[i], lowered)
  {
    if entities != [] {
      var rest := entities[1..];
      var first := CommandMatch(text, entities[0], lowered);
      AnyCommandIsFirstDecision(text, rest, lowered);
      forall i | 0 <= i <= |rest|
        ensures NoMatchBefore(text, entities, lowered, i + 1)
                <==> first == Success(false) && NoMatchBefore(text, rest, lowered, i)
      {
        if first == Success(false) && NoMatchBefore(text, rest, lowered, i) {
          forall j | 0 <= j < i + 1
            ensures CommandMatch(text, entities[j], lowered) == Success(false)
          {
            if j > 0 { assert entities[j] == rest[j - 1]; }
          }
        }
        if NoMatchBefore(text, entities, lowered, i + 1) {
          forall j | 0 <= j < i
            ensures CommandMatch(text, rest[j], lowered) == Success(false)
          {
            assert rest[j] == entities[j + 1];
          }
        }
      }
      forall i | 0 <= i < |entities| && NoMatchBefore(text, entities, lowered, i)
                 && CommandMatch(text, entities[i], lowered) != Success(false)
        ensures AnyCommand(text, entities, lowered) == CommandMatch(text, entities[i], lowered)
      {
        if i > 0 {
          assert NoMatchBefore(text, rest, lowered, i - 1);
          assert entities[i] == rest[i - 1];
        }
      }
    }
  }

  /** The message's entity `i` is a bot command naming `name`, ignoring case. */
  ghost predicate NamesCommand(m: Message, i: int, name: Utf16)
    requires 0 <= i < |m.entities|
  {
    var e := m.entities[i];
    && e.entityType == BotCommand
    && m.text.Some?
    && InRange(m.text.value, e)
    && ToLowerInvariant(CommandText(m.text.value, e)) == ToLowerInvariant(name)
  }

  /** Every bot-command entity of the message can be read: the text is
      present and the entity lies inside it. */
  ghost predicate CommandsReadable(m: Message) {
    forall i :: 0 <= i < |m.entities| && m.entities[i].entityType == BotCommand ==>
      m.text.Some? && InRange(m.text.value, m.entities[i])
  }

  /** On a message whose bot commands can all be read, `HasCommand(name)` is
      true exactly when some bot-command entity, after its leading '/',
      spells `name` ignoring case, and false otherwise. */
  lemma HasCommandIffNamedEntity(m: Message, name: Utf16)
    requires !IsNullOrWhiteSpace(Some(name))
    requires CommandsReadable(m)
    ensures HasCommand(m, Some(name)) == Success(exists i :: 0 <= i < |m.entities| && NamesCommand(m, i, name))
  {
    var lowered := ToLowerInvariant(name);
    var es := m.entities;
    AnyCommandIsFirstDecision(m.text, es, lowered);
    if i :| 0 <= i < |es| && NamesCommand(m, i, name) {
      var k := FirstCommandNaming(m, name, i);
      assert NoMatchBefore(m.text, es, lowered, k);
    } else {
      forall j | 0 <= j < |es| ensures CommandMatch(m.text, es[j], lowered) == Success(false) {
        assert !NamesCommand(m, j, name);
      }
      assert NoMatchBefore(m.text, es, lowered, |es|);
    }
  }

  /** The first entity that names `name`, at or before a known one. */
  lemma {:induction false} FirstCommandNaming(m: Message, name: Utf16, i: nat) returns (k: nat)
    requires CommandsReadable(m)
    requires i < |m.entities| && NamesCommand(m, i, name)
    ensures k <= i && NamesCommand(m, k, name)
    ensures forall j :: 0 <= j < k ==> CommandMatch(m.text, m.entities[j], ToLowerInvariant(name)) == Success(false)
    decreases i
  {
    var lowered := ToLowerInvariant(name);
    if j :| 0 <= j < i && CommandMatch(m.text, m.entities[j], lowered) != Success(false) {
      assert NamesCommand(m, j, name);
      k := FirstCommandNaming(m, name, j);
    } else {
      k := i;
    }
  }

  /** The first entity that decides `Any` decides `HasCommand` too: a bot
      command that cannot be read makes the call throw instead of answering
      false — `NullReferenceException` without text,
      `ArgumentOutOfRangeException` when the slice leaves the text (a
      zero length, or an end beyond the text). */
  lemma UnreadableCommandThrows(m: Message, name: Utf16, i: nat)
    requires !IsNullOrWhiteSpace(Some(name))
    requires i < |m.entities| && NoMatchBefore(m.text, m.entities, ToLowerInvariant(name), i)
    requires m.entities[i].entityType == BotCommand
    requires m.text.None? || !InRange(m.text.value, m.entities[i])
    ensures m.text.None? ==> HasCommand(m, Some(name)) == Failure(NullReference)
    ensures m.text.Some? ==> HasCommand(m, Some(name)) == Failure(ArgumentOutOfRange)
  {
    AnyCommandIsFirstDecision(m.text, m.entities, ToLowerInvariant(name));
  }

  /** The entities that are bot commands, in their original order: each
      bot command as often as the list holds it, and nothing else. */
  function CommandEntities(entities: seq<MessageEntity>): (r: seq<MessageEntity>)
    ensures forall e :: e in r ==> e in entities && e.entityType == BotCommand
    ensures forall i :: 0 <= i < |entities| && entities[i].entityType == BotCommand ==> entities[i] in r
    ensures forall e: MessageEntity :: e.entityType == BotCommand ==> multiset(r)[e] == multiset(entities)[e]
  {
    if entities == [] then []
    else
      assert entities == [entities[0]] + entities[1..];
      if entities[0].entityType == BotCommand then [entities[0]] + CommandEntities(entities[1..])
      else CommandEntities(entities[1..])
  }

  /** Filtering a list made of two parts filters each part and keeps them
      in that order, so the kept commands stay in their original order. */
  lemma {:induction false} CommandEntitiesAppend(a: seq<MessageEntity>, b: seq<MessageEntity>)
    ensures CommandEntities(a + b) == CommandEntities(a) + CommandEntities(b)
  {
    if a == [] {
      assert a + b == b;
    } else {
      assert (a + b)[0] == a[0] && (a + b)[1..] == a[1..] + b;
      CommandEntitiesAppend(a[1..], b);
    }
  }

  lemma {:induction false} AnyCommandOnlyReadsCommands(text: Option<NetString>, entities: seq<MessageEntity>, lowered: Utf16)
    ensures AnyCommand(text, CommandEntities(entities), lowered) == AnyCommand(text, entities, lowered)
  {
    if entities != [] {
      AnyCommandOnlyReadsCommands(text, entities[1..], lowered);
      if entities[0].entityType == BotCommand {
        assert ([entities[0]] + CommandEntities(entities[1..]))[1..] == CommandEntities(entities[1..]);
      }
    }
  }

  /** Entities of any other type never change the answer, whatever their
      offsets and lengths: the result is that of the bot-command entities
      alone. */
  lemma OtherEntitiesNeverMatter(m: Message, commandName: Option<Utf16>)
    ensures HasCommand(m.(entities := CommandEntities(m.entities)), commandName) == HasCommand(m, commandName)
  {
    if !IsNullOrWhiteSpace(commandName) {
      AnyCommandOnlyReadsCommands(m.text, m.entities, ToLowerInvariant(commandName.value));
    }
  }

  lemma LowerCharPreservesWhiteSpace(a: CodeUnit, b: CodeUnit)
    requires LowerChar(a) == LowerChar(b)
    ensures IsWhiteSpace(a) <==> IsWhiteSpace(b)
  {
  }

  /** Two command names that lower to the same string get the same answer
      from every message. */
  lemma HasCommandIgnoresCase(m: Message, name1: Utf16, name2: Utf16)
    requires ToLowerInvariant(name1) == ToLowerInvariant(name2)
    ensures HasCommand(m, Some(name1)) == HasCommand(m, Some(name2))
  {
    assert |name1| == |name2|;
    forall i | 0 <= i < |name1| ensures IsWhiteSpace(name1[i]) <==> IsWhiteSpace(name2[i]) {
      assert ToLowerInvariant(name1)[i] == ToLowerInvariant(name2)[i];
      LowerCharPreservesWhiteSpace(name1[i], name2[i]);
    }
  }

  /** Asking for the lower-case form of a command name gives the same answer. */
  lemma HasCommandOfLoweredName(m: Message, name: Utf16)
    ensures HasCommand(m, Some(ToLowerInvariant(name))) == HasCommand(m, Some(name))
  {
    var lowered := ToLowerInvariant(name);
    ToLowerInvariantIdempotent(name);
    HasCommandIgnoresCase(m, lowered, name);
  }

  /** A message built by the constructor has no entities, so it carries no
      command: `HasCommand` answers false for every usable name. */
  lemma NewMessageHasNoCommand(name: Utf16)
    requires !IsNullOrWhiteSpace(Some(name))
    ensures HasCommand(NewMessage(), Some(name)) == Success(false)
  {
  }

  /** Offsets and lengths count UTF-16 code units: in "\U{1F600} /start" the
      emoji takes two units, so the command entity starts at 3 and spans 6,
      and asking for "Start" finds it. */
  lemma CommandAfterEmoji()
    ensures var text: Utf16 := [0xD83D, 0xDE00, 0x20, 0x2F, 0x73, 0x74, 0x61, 0x72, 0x74];
            var m := NewMessage().(text := Some(text), entities := [MessageEntity(3, 6, BotCommand)]);
            HasCommand(m, Some([0x53, 0x74, 0x61, 0x72, 0x74])) == Success(true)
  {
    var text: Utf16 := [0xD83D, 0xDE00, 0x20, 0x2F, 0x73, 0x74, 0x61, 0x72, 0x74];
    var e := MessageEntity(3, 6, BotCommand);
    var name: Utf16 := [0x73, 0x74, 0x61, 0x72, 0x74];
    assert Wrap32(e.offset + 1) == 4 && Wrap32(e.length - 1) == 5;
    assert text[4..9] == name;
    assert ToLowerInvariant(name) == name;
    assert ToLowerInvariant([0x53, 0x74, 0x61, 0x72, 0x74]) == name;
    assert CommandMatch(Some(text), e, name) == Success(true);
    var asked: Utf16 := [0x53, 0x74, 0x61, 0x72, 0x74];
    assert !IsWhiteSpace(asked[0]);
    var m := NewMessage().(text := Some(text), entities := [e]);
    assert AnyCommand(m.text, m.entities, ToLowerInvariant(asked)) == Success(true);
  }

  // ---------------------------------------------------------------------
  // CreateReply
  // ---------------------------------------------------------------------

  /** `Message.CreateReply(text)`: a request addressed to the message's chat,
      quoting the message, with parse mode, preview and notification flags and
      keyboard left unset; a message without a chat throws on `Chat.Id`. */
  function CreateReply(m: Message, text: Option<Utf16>): (r: Result<SendMessageRequest>)
    ensures r.Failure? <==> m.chat.None?
    ensures r.Failure? ==> r.error == NullReference
    ensures r.Success? ==>
              && r.value.chatId == m.chat.value.id
              && r.value.replyToMessageId == Some(m.messageId)
              && r.value.text == text
              && r.value.parseMode.None? && r.value.disableWebPagePreview.None?
              && r.value.disableNotification.None? && r.value.replyMarkup.None?
  {
    if m.chat.None? then Failure(NullReference)
    else Success(SendMessageRequest(m.chat.value.id, text, None, None, None, Some(m.messageId), None))
  }
}
