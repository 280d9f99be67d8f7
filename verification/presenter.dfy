/** The Telegram front end: the command filters, the order in which handlers are tried, the
    conversation state of each chat member, and the transaction every update runs in. */
module Presenter {
  import opened Wrappers
  import opened Errors
  import opened Text
  import opened Schemas
  import opened WeatherClients
  import opened Repositories
  import Service

  // ---------------------------------------------------------------------------------------
  // Messages and commands

  datatype TgUser = TgUser(id: int, firstName: string)

  /** An incoming message: the chat, the sender, the text and the caption (either may be absent). */
  datatype Message = Message(chatId: int, from: TgUser, text: Option<string>, caption: Option<string>)

  /** A parsed command: `/name@mention args`. */
  datatype CommandObject = CommandObject(prefix: char, command: string, mention: Option<string>)

  /** What the command filter reads: the text, or the caption when the text is absent or empty. */
  function CommandText(m: Message): (t: Option<string>)
    ensures t.Some? ==> |t.value| > 0
    ensures m.text.Some? && m.text.value != "" ==> t == m.text
    ensures m.text.None? || m.text.value == "" ==>
              t == if m.caption.Some? && m.caption.value != "" then m.caption else None
  {
    if m.text.Some? && m.text.value != "" then m.text
    else if m.caption.Some? && m.caption.value != "" then m.caption
    else None
  }

  /** The part of `s` before the first `c`. */
  function Before(s: string, c: char): (r: string)
    ensures r <= s
    ensures forall i :: 0 <= i < |r| ==> r[i] != c
    ensures |r| < |s| ==> s[|r|] == c
  {
    if s == [] || s[0] == c then [] else [s[0]] + Before(s[1..], c)
  }

  /** What follows the first `@` after `command` in `body`, when it is not empty. */
  function MentionAfter(body: string, command: string): Option<string>
  {
    if |command| < |body| && body[|command| + 1..] != "" then Some(body[|command| + 1..]) else None
  }

  /** The first word split into prefix character, command and mention (`partition("@")`; an
      empty mention counts as none). No word at all is not a command. */
  function ParseCommand(text: string): (r: Option<CommandObject>)
    ensures r.None? <==> FirstWord(StripLeading(text)) == []
    ensures r.Some? ==> [r.value.prefix] + r.value.command <= FirstWord(StripLeading(text))
    ensures r.Some? ==> r.value.prefix == FirstWord(StripLeading(text))[0]
    ensures r.Some? ==> r.value.command == Before(FirstWord(StripLeading(text))[1..], '@')
    ensures r.Some? ==> r.value.mention == MentionAfter(FirstWord(StripLeading(text))[1..], r.value.command)
  {
    var word := FirstWord(StripLeading(text));
    if word == [] then None
    else
      var body := word[1..];
      var command := Before(body, '@');
      assert [word[0]] + command <= word by {
        assert word == [word[0]] + body;
      }
      Some(CommandObject(word[0], command, MentionAfter(body, command)))
  }

  /** Splitting at the first `c` loses nothing: `s` is the part before it, then `c` and the rest. */
  lemma BeforeSplits(s: string, c: char)
    ensures |Before(s, c)| < |s| ==> s == Before(s, c) + [c] + s[|Before(s, c)| + 1..]
    ensures |Before(s, c)| == |s| ==> s == Before(s, c)
  {
    var b := Before(s, c);
    if |b| < |s| {
      assert s == s[..|b| + 1] + s[|b| + 1..];
      assert s[..|b| + 1] == b + [c];
    }
  }

  /** A word is its prefix, its command, and `@` with the mention when there is one. */
  lemma WordSplits(w: string, command: string, mention: Option<string>)
    requires w != [] && command == Before(w[1..], '@') && mention == MentionAfter(w[1..], command)
    ensures mention.Some? ==> w == [w[0]] + command + "@" + mention.value
    ensures mention.None? ==> w == [w[0]] + command || w == [w[0]] + command + "@"
  {
    assert w == [w[0]] + w[1..];
    BeforeSplits(w[1..], '@');
  }

  /** The parsed command puts its first word back together: prefix, command, then `@` and the
      mention when there is one (a trailing bare `@` is dropped). */
  lemma ParseCommandPartition(text: string)
    requires ParseCommand(text).Some?
    ensures var c := ParseCommand(text).value;
            c.mention.Some? ==> FirstWord(StripLeading(text)) == [c.prefix] + c.command + "@" + c.mention.value
    ensures var c := ParseCommand(text).value;
            c.mention.None? ==> FirstWord(StripLeading(text)) == [c.prefix] + c.command
                                || FirstWord(StripLeading(text)) == [c.prefix] + c.command + "@"
  {
    var c := ParseCommand(text).value;
    WordSplits(FirstWord(StripLeading(text)), c.command, c.mention);
  }

  /** aiogram `Command(name)`: prefix `/`, the exact (case-sensitive) name, and a mention, if
      any, equal to the bot's username up to case. */
  predicate IsCommand(m: Message, name: string, botName: Option<string>)
  {
    && CommandText(m).Some?
    && var parsed := ParseCommand(CommandText(m).value);
       && parsed.Some?
       && parsed.value.prefix == '/'
       && parsed.value.command == name
       && (parsed.value.mention.Some? && botName.Some? ==>
             LowerAll(parsed.value.mention.value) == LowerAll(botName.value))
  }

  /** A plain word: no whitespace and no `@`. */
  predicate PlainWord(s: string)
  {
    forall i :: 0 <= i < |s| ==> !IsSpace(s[i]) && s[i] != '@'
  }

  lemma StripLeadingKeeps(s: string)
    requires s == [] || !IsSpace(s[0])
    ensures StripLeading(s) == s
  {
  }

  lemma FirstWordWhole(s: string)
    requires forall i :: 0 <= i < |s| ==> !IsSpace(s[i])
    ensures FirstWord(s) == s
  {
  }

  lemma BeforeAbsent(s: string, c: char)
    requires forall i :: 0 <= i < |s| ==> s[i] != c
    ensures Before(s, c) == s
  {
  }

  /** `/name` sent as text is the command `name`, whatever the bot is called. */
  lemma SlashCommandRecognised(chatId: int, from: TgUser, name: string, botName: Option<string>)
    requires PlainWord(name)
    ensures IsCommand(Message(chatId, from, Some("/" + name), None), name, botName)
  {
    var text := "/" + name;
    StripLeadingKeeps(text);
    assert forall i :: 0 <= i < |text| ==> !IsSpace(text[i]) by {
      forall i | 0 <= i < |text| ensures !IsSpace(text[i]) {
        if i > 0 {
          assert text[i] == name[i - 1];
        }
      }
    }
    FirstWordWhole(text);
    assert text[1..] == name;
    BeforeAbsent(name, '@');
    assert ParseCommand(text) == Some(CommandObject('/', name, None));
  }

  /** A command addressed to another bot is not this bot's command. */
  lemma OtherBotsCommandIgnored(m: Message, name: string, botName: string)
    requires CommandText(m).Some? && ParseCommand(CommandText(m).value).Some?
    requires ParseCommand(CommandText(m).value).value.mention.Some?
    requires LowerAll(ParseCommand(CommandText(m).value).value.mention.value) != LowerAll(botName)
    ensures !IsCommand(m, name, Some(botName))
  {
  }

  // ---------------------------------------------------------------------------------------
  // Conversation state and routing

  /** No state, or waiting for a locality after `/weather` (`WeatherRequest.locality`). */
  datatype ConvState = Idle | AwaitingLocality

  datatype Handler = Authenticate | Help | RequestLocality | ProvideLocality | ShowHistory | Unknown

  /** The handlers in registration order; the first whose filters pass takes the message. */
  const Handlers: seq<Handler> := [Authenticate, Help, RequestLocality, ProvideLocality, ShowHistory, Unknown]

  /** The filters each handler is registered with. */
  predicate Accepts(h: Handler, state: ConvState, m: Message, botName: Option<string>)
  {
    match h
    case Authenticate => state == Idle && IsCommand(m, "start", botName)
    case Help => IsCommand(m, "help", botName)
    case RequestLocality => state == Idle && IsCommand(m, "weather", botName)
    case ProvideLocality => state == AwaitingLocality
    case ShowHistory => state == Idle && IsCommand(m, "history", botName)
    case Unknown => true
  }

  function FirstAccepting(hs: seq<Handler>, state: ConvState, m: Message, botName: Option<string>): (r: Option<nat>)
    ensures r.Some? ==> r.value < |hs| && Accepts(hs[r.value], state, m, botName)
    ensures r.Some? ==> forall k :: 0 <= k < r.value ==> !Accepts(hs[k], state, m, botName)
    ensures r.None? ==> forall k :: 0 <= k < |hs| ==> !Accepts(hs[k], state, m, botName)
  {
    if hs == [] then None
    else if Accepts(hs[0], state, m, botName) then Some(0)
    else
      match FirstAccepting(hs[1..], state, m, botName)
      case None => None
      case Some(k) => Some(k + 1)
  }

  /** The handler that takes the message: the first registered one whose filters pass. */
  function Route(state: ConvState, m: Message, botName: Option<string>): (h: Handler)
    ensures Accepts(h, state, m, botName)
    ensures exists i :: 0 <= i < |Handlers| && Handlers[i] == h
                        && forall k :: 0 <= k < i ==> !Accepts(Handlers[k], state, m, botName)
  {
    var i := FirstAccepting(Handlers, state, m, botName);
    if i.Some? then Handlers[i.value]
    else assert Accepts(Handlers[5], state, m, botName); Unknown
  }

  /** The handler at position `j` takes the message when it accepts it and none before it does. */
  lemma RoutesTo(state: ConvState, m: Message, botName: Option<string>, j: nat)
    requires j < |Handlers| && Accepts(Handlers[j], state, m, botName)
    requires forall k :: 0 <= k < j ==> !Accepts(Handlers[k], state, m, botName)
    ensures Route(state, m, botName) == Handlers[j]
  {
  }

  /** A message is a command of at most one name. */
  lemma OneCommandName(m: Message, a: string, b: string, botName: Option<string>)
    requires IsCommand(m, a, botName) && IsCommand(m, b, botName)
    ensures a == b
  {
  }

  /** A command of one name is not a command of any other name. */
  lemma OtherCommandName(m: Message, a: string, b: string, botName: Option<string>)
    requires IsCommand(m, a, botName) && a != b
    ensures !IsCommand(m, b, botName)
  {
    if IsCommand(m, b, botName) {
      OneCommandName(m, a, b, botName);
    }
  }

  /** `/help` is answered in every state. */
  lemma HelpInEveryState(state: ConvState, m: Message, botName: Option<string>)
    requires IsCommand(m, "help", botName)
    ensures Route(state, m, botName) == Help
  {
    if IsCommand(m, "start", botName) {
      OneCommandName(m, "start", "help", botName);
    }
    RoutesTo(state, m, botName, 1);
  }

  /** While a locality is awaited, everything but `/help` is taken as the locality, commands
      included. */
  lemma AwaitingTakesLocality(m: Message, botName: Option<string>)
    requires !IsCommand(m, "help", botName)
    ensures Route(AwaitingLocality, m, botName) == ProvideLocality
  {
    RoutesTo(AwaitingLocality, m, botName, 3);
  }

  /** With no state, `/weather` reaches the handler that asks for a locality. */
  lemma IdleWeatherRoutes(m: Message, botName: Option<string>)
    requires IsCommand(m, "weather", botName)
    ensures Route(Idle, m, botName) == RequestLocality
  {
    if IsCommand(m, "start", botName) {
      OneCommandName(m, "start", "weather", botName);
    }
    if IsCommand(m, "help", botName) {
      OneCommandName(m, "help", "weather", botName);
    }
    RoutesTo(Idle, m, botName, 2);
  }

  /** With no state, `/history` reaches the history handler. */
  lemma IdleHistoryRoutes(m: Message, botName: Option<string>)
    requires IsCommand(m, "history", botName)
    ensures Route(Idle, m, botName) == ShowHistory
  {
    OtherCommandName(m, "history", "start", botName);
    OtherCommandName(m, "history", "help", botName);
    OtherCommandName(m, "history", "weather", botName);
    RoutesTo(Idle, m, botName, 4);
  }

  /** With no state, a message that is none of the four commands is unknown. */
  lemma IdleOtherwiseUnknown(m: Message, botName: Option<string>)
    requires !IsCommand(m, "start", botName) && !IsCommand(m, "help", botName)
    requires !IsCommand(m, "weather", botName) && !IsCommand(m, "history", botName)
    ensures Route(Idle, m, botName) == Unknown
  {
  }

  // ---------------------------------------------------------------------------------------
  // Handlers

  /** What the bot sends back (the wording is the view's business). */
  datatype Reply =
    | GreetNew
    | GreetExistent
    | ShowHelp
    | AskLocality
    | TellInvalidInput
    | TellGeneralError
    | ShowWeather(comparison: seq<Weather>)
    | ShowHistoryReply(history: seq<HistoryRecord>)
    | TellUnknown

  /** A handler either finishes, with a reply, the next state and the store it leaves, or raises. */
  datatype Outcome = Handled(reply: Reply, next: ConvState, store: Store) | Raised(error: Error)

  /** What the handlers see besides the message: the weather clients, the network, the clock
      and the bot's username. */
  datatype Env = Env(clients: seq<Provider>, net: Network, now: int, botName: Option<string>)

  /** `authenticate`: registers the sender; an existing user is greeted as such. */
  function Authenticated(store: Store, state: ConvState, m: Message): (o: Outcome)
    ensures var u := m.from;
            1 <= |u.firstName| <= 64 && IsBigint(u.id) ==>
              if u.id in store.users then o == Handled(GreetExistent, state, store)
              else o == Handled(GreetNew, state, store.(users := store.users[u.id := u.firstName]))
    ensures !(1 <= |m.from.firstName| <= 64) ==> o == Raised(ValidationError)
  {
    match ValidateUser(m.from.id, m.from.firstName)
    case Err(e) => Raised(e)
    case Ok(user) =>
      match Service.Register(store, user)
      case Ok(s) => Handled(GreetNew, state, s)
      case Err(AlreadyExistsError) => Handled(GreetExistent, state, store)
      case Err(e) => Raised(e)
  }

  /** `get_weather`: the text as a locality, compared and recorded. Success shows the comparison
      and ends the conversation; invalid input and an unreachable service are reported and the
      locality is still awaited; anything else escapes. */
  function LocalityProvided(env: Env, store: Store, state: ConvState, m: Message): (o: Outcome)
    ensures ValidateLocality(m.from.id, m.text).Err? ==> o == Handled(TellInvalidInput, state, store)
    ensures o.Handled? && o.next != state ==> o.next == Idle
    ensures o.Handled? && o.reply.ShowWeather? ==>
              var loc := ValidateLocality(m.from.id, m.text).value;
              Service.GetWeather(env.clients, env.net, store, loc, env.now) == Ok((o.reply.comparison, o.store))
    ensures o.Handled? && !o.reply.ShowWeather? ==> o.store == store && o.next == state
    ensures o.Raised? ==> o.error !in {ValidationError, ExternalError}
    ensures ValidateLocality(m.from.id, m.text).Ok? ==>
              var g := Service.GetWeather(env.clients, env.net, store, ValidateLocality(m.from.id, m.text).value, env.now);
              && (g.Ok? ==> o == Handled(ShowWeather(g.value.0), Idle, g.value.1))
              && (g == Err(ValidationError) ==> o == Handled(TellInvalidInput, state, store))
              && (g == Err(ExternalError) ==> o == Handled(TellGeneralError, state, store))
              && (g.Err? && g.error !in {ValidationError, ExternalError} ==> o == Raised(g.error))
  {
    match ValidateLocality(m.from.id, m.text)
    case Err(_) => Handled(TellInvalidInput, state, store)
    case Ok(locality) =>
      match Service.GetWeather(env.clients, env.net, store, locality, env.now)
      case Ok((comparison, s)) => Handled(ShowWeather(comparison), Idle, s)
      case Err(ValidationError) => Handled(TellInvalidInput, state, store)
      case Err(ExternalError) => Handled(TellGeneralError, state, store)
      case Err(e) => Raised(e)
  }

  /** `get_history`: the sender's stored comparisons. */
  function HistoryShown(store: Store, state: ConvState, m: Message): (o: Outcome)
    ensures Valid(store) ==> o.Handled? && o.reply.ShowHistoryReply? && o.store == store && o.next == state
    ensures o.Handled? ==> o.reply.ShowHistoryReply? && o.store == store && o.next == state
    ensures o.Handled? ==> forall i :: 0 <= i < |o.reply.history| ==> o.reply.history[i].userId == m.from.id
    ensures o.Handled? ==> forall row :: row in store.history && row.userId == m.from.id ==>
              RecordOf(row).Ok? && RecordOf(row).value in o.reply.history
  {
    match Service.GetHistory(store, HistoryQuery(m.from.id))
    case Ok(history) => Handled(ShowHistoryReply(history), state, store)
    case Err(e) => Raised(e)
  }

  function Handle(h: Handler, env: Env, store: Store, state: ConvState, m: Message): (o: Outcome)
  {
    match h
    case Authenticate => Authenticated(store, state, m)
    case Help => Handled(ShowHelp, state, store)
    case RequestLocality => Handled(AskLocality, AwaitingLocality, store)
    case ProvideLocality => LocalityProvided(env, store, state, m)
    case ShowHistory => HistoryShown(store, state, m)
    case Unknown => Handled(TellUnknown, state, store)
  }

  // ---------------------------------------------------------------------------------------
  // Updates

  /** The conversation states, per chat member, and the store. */
  datatype Bot = Bot(states: map<(int, int), ConvState>, store: Store)

  function Key(m: Message): (int, int)
  {
    (m.chatId, m.from.id)
  }

  function StateOf(bot: Bot, key: (int, int)): ConvState
  {
    if key in bot.states then bot.states[key] else Idle
  }

  /** One update: route by the sender's state, run the handler inside a transaction. A handler
      that raises rolls the transaction back and changes no state. */
  function Update(env: Env, bot: Bot, m: Message): (r: (Bot, Outcome))
    ensures r.1 == Handle(Route(StateOf(bot, Key(m)), m, env.botName), env, bot.store, StateOf(bot, Key(m)), m)
    ensures r.1.Raised? ==> r.0 == bot
    ensures r.1.Handled? ==> r.0.store == r.1.store && StateOf(r.0, Key(m)) == r.1.next
    ensures forall k :: k != Key(m) ==> StateOf(r.0, k) == StateOf(bot, k)
  {
    var state := StateOf(bot, Key(m));
    var outcome := Handle(Route(state, m, env.botName), env, bot.store, state, m);
    match outcome
    case Raised(_) => (bot, outcome)
    case Handled(_, next, store) => (Bot(bot.states[Key(m) := next], store), outcome)
  }

  // ---------------------------------------------------------------------------------------
  // Conversation properties

  /** `/weather` with no state asks for a locality and waits for it. */
  lemma WeatherAsksForLocality(env: Env, bot: Bot, m: Message)
    requires StateOf(bot, Key(m)) == Idle
    requires IsCommand(m, "weather", env.botName)
    ensures Update(env, bot, m).1 == Handled(AskLocality, AwaitingLocality, bot.store)
    ensures StateOf(Update(env, bot, m).0, Key(m)) == AwaitingLocality
  {
    IdleWeatherRoutes(m, env.botName);
  }

  /** A valid locality whose comparison succeeds is shown and recorded, and ends the
      conversation. */
  lemma LocalityAnswered(env: Env, bot: Bot, m: Message, loc: Locality, comparison: seq<Weather>, s: Store)
    requires StateOf(bot, Key(m)) == AwaitingLocality && !IsCommand(m, "help", env.botName)
    requires ValidateLocality(m.from.id, m.text) == Ok(loc)
    requires Service.GetWeather(env.clients, env.net, bot.store, loc, env.now) == Ok((comparison, s))
    ensures Update(env, bot, m).1 == Handled(ShowWeather(comparison), Idle, s)
    ensures Update(env, bot, m).0.store == s && StateOf(Update(env, bot, m).0, Key(m)) == Idle
  {
    AwaitingTakesLocality(m, env.botName);
  }

  /** An invalid locality is reported; the bot keeps waiting and stores nothing. */
  lemma InvalidLocalityKeepsWaiting(env: Env, bot: Bot, m: Message)
    requires StateOf(bot, Key(m)) == AwaitingLocality && !IsCommand(m, "help", env.botName)
    requires ValidateLocality(m.from.id, m.text).Err?
    ensures Update(env, bot, m).1 == Handled(TellInvalidInput, AwaitingLocality, bot.store)
    ensures Update(env, bot, m).0.store == bot.store && StateOf(Update(env, bot, m).0, Key(m)) == AwaitingLocality
  {
    AwaitingTakesLocality(m, env.botName);
  }

  /** An unreachable weather service is reported; the bot keeps waiting and stores nothing. */
  lemma ServiceFailureKeepsWaiting(env: Env, bot: Bot, m: Message, loc: Locality)
    requires StateOf(bot, Key(m)) == AwaitingLocality && !IsCommand(m, "help", env.botName)
    requires ValidateLocality(m.from.id, m.text) == Ok(loc)
    requires AggregatedGet(env.clients, loc, env.net) == Err(ExternalError)
    ensures Update(env, bot, m).1 == Handled(TellGeneralError, AwaitingLocality, bot.store)
    ensures StateOf(Update(env, bot, m).0, Key(m)) == AwaitingLocality
  {
    AwaitingTakesLocality(m, env.botName);
    assert Service.GetWeather(env.clients, env.net, bot.store, loc, env.now) == Err(ExternalError);
    assert LocalityProvided(env, bot.store, AwaitingLocality, m) == Handled(TellGeneralError, AwaitingLocality, bot.store);
  }

  /** Provider data that does not validate is reported as invalid input; the bot keeps waiting
      and stores nothing. */
  lemma ProviderDataInvalidKeepsWaiting(env: Env, bot: Bot, m: Message, loc: Locality)
    requires StateOf(bot, Key(m)) == AwaitingLocality && !IsCommand(m, "help", env.botName)
    requires ValidateLocality(m.from.id, m.text) == Ok(loc)
    requires AggregatedGet(env.clients, loc, env.net) == Err(ValidationError)
    ensures Update(env, bot, m).1 == Handled(TellInvalidInput, AwaitingLocality, bot.store)
    ensures Update(env, bot, m).0.store == bot.store && StateOf(Update(env, bot, m).0, Key(m)) == AwaitingLocality
  {
    AwaitingTakesLocality(m, env.botName);
    assert Service.GetWeather(env.clients, env.net, bot.store, loc, env.now) == Err(ValidationError);
    assert LocalityProvided(env, bot.store, AwaitingLocality, m) == Handled(TellInvalidInput, AwaitingLocality, bot.store);
  }

  /** `/start` registers a new sender once; afterwards it greets them as existing. */
  lemma StartRegistersOnce(env: Env, bot: Bot, m: Message)
    requires StateOf(bot, Key(m)) == Idle && IsCommand(m, "start", env.botName)
    requires 1 <= |m.from.firstName| <= 64 && IsBigint(m.from.id) && m.from.id !in bot.store.users
    ensures Update(env, bot, m).1.Handled? && Update(env, bot, m).1.reply == GreetNew
    ensures m.from.id in Update(env, bot, m).0.store.users
    ensures Update(env, Update(env, bot, m).0, m).1 == Handled(GreetExistent, Idle, Update(env, bot, m).0.store)
  {
  }

  /** `/history` shows exactly the sender's records and changes nothing. */
  lemma HistoryIsTheSendersOwn(env: Env, bot: Bot, m: Message)
    requires StateOf(bot, Key(m)) == Idle && IsCommand(m, "history", env.botName)
    requires Valid(bot.store)
    ensures Update(env, bot, m).1.Handled? && Update(env, bot, m).0 == bot.(states := bot.states[Key(m) := Idle])
    ensures Update(env, bot, m).1.reply.ShowHistoryReply?
    ensures forall i :: 0 <= i < |Update(env, bot, m).1.reply.history| ==>
              Update(env, bot, m).1.reply.history[i].userId == m.from.id
    ensures forall row :: row in bot.store.history && row.userId == m.from.id ==>
              RecordOf(row).Ok? && RecordOf(row).value in Update(env, bot, m).1.reply.history
  {
    IdleHistoryRoutes(m, env.botName);
    assert Update(env, bot, m).1 == HistoryShown(bot.store, Idle, m);
  }
}
